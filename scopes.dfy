/** How scopes share instances across a container tree: a singleton is one
    instance for every container under the same root, a local singleton is
    one per container, and a transient target is a new instance each time. */
module Scopes {
  import opened Types
  import opened Metadata
  import opened Container
  import opened Properties
  import opened Tree

  /** Two containers under the same root see one singleton: once one of
      them has resolved it, the other resolves the same instance and
      changes nothing. */
  lemma SingletonShared(a: DIContainer, b: DIContainer, md: Metadata, chainA: Chain, chainB: Chain, t: Target, w: World, d: nat, d': nat)
    requires a.Valid() && b.Valid() && a.Root() == b.Root()
    requires Resolvable(md, chainA, t, d) && Resolvable(md, chainB, t, d') && (t.OfClass? || t.OfFactory?)
    requires MetaOf(md, t).Some? && MetaOf(md, t).value.scope == Singleton
    requires a.Covers(w) && MetaOf(md, t).value.key !in DependencyKeys(md, chainA, t, d)
    ensures var r := a.ResolveSpec(md, chainA, t, w, d);
      r.result.Ok? ==> b.ResolveSpec(md, chainB, t, r.world, d') == r
  {
    var r := a.ResolveSpec(md, chainA, t, w, d);
    if r.result.Ok? {
      ResolvedIsCached(a, md, chainA, t, w, d);
      assert b.Cached(r.world, MetaOf(md, t)) == a.Cached(r.world, MetaOf(md, t));
      CacheHitFirst(b, md, chainB, t, r.world, d');
    }
  }

  /** A child created from `parent` shares its root, so a singleton the
      parent resolved is the one the child resolves. */
  lemma SingletonParentChild(child: DIContainer, md: Metadata, chainP: Chain, chainC: Chain, t: Target, w: World, d: nat, d': nat)
    requires child.Valid() && child.parent != null
    requires Resolvable(md, chainP, t, d) && Resolvable(md, chainC, t, d') && (t.OfClass? || t.OfFactory?)
    requires MetaOf(md, t).Some? && MetaOf(md, t).value.scope == Singleton
    requires child.parent.Covers(w) && MetaOf(md, t).value.key !in DependencyKeys(md, chainP, t, d)
    ensures child.parent.Valid()
    ensures var r := child.parent.ResolveSpec(md, chainP, t, w, d);
      r.result.Ok? ==> child.ResolveSpec(md, chainC, t, r.world, d') == r
  {
    CachesOfChild(child);
    SingletonShared(child.parent, child, md, chainP, chainC, t, w, d, d');
  }

  /** A local singleton the parent resolved is not the child's: when the
      child's own cache has no instance for it, the child builds a new one. */
  lemma LocalSingletonPerContainer(child: DIContainer, md: Metadata, chainP: Chain, chainC: Chain, t: Target, w: World, d: nat, d': nat)
    requires child.Valid() && child.parent != null
    requires Resolvable(md, chainP, t, d) && Resolvable(md, chainC, t, d') && (t.OfClass? || t.OfFactory?)
    requires MetaOf(md, t).Some? && MetaOf(md, t).value.scope == LocalSingleton
    requires child.instanceCache in w.stores && MetaOf(md, t).value.key !in w.stores[child.instanceCache]
    requires IdsBelow(w)
    ensures child.parent.Valid()
    ensures var r := child.parent.ResolveSpec(md, chainP, t, w, d);
      var r' := child.ResolveSpec(md, chainC, t, r.world, d');
      r.result.Ok? && r'.result.Ok? ==> r.result.value.id < r'.result.value.id
  {
    var p := child.parent;
    CachesOfChild(child);
    var r := p.ResolveSpec(md, chainP, t, w, d);
    ResolveGrows(p, md, chainP, t, w, d);
    assert r.world.stores[child.instanceCache] == w.stores[child.instanceCache];
    assert child.Cached(r.world, MetaOf(md, t)).None?;
    FreshOnMiss(child, md, chainC, t, r.world, d');
  }

  /** Two targets with no cached scope resolved side by side, as two
      constructor parameters are, give two different instances. */
  lemma TransientSiblingsDistinct(c: DIContainer, md: Metadata, chain: Chain, t: Target, u: Target, w: World, d: nat)
    requires c.Valid() && AllResolvable(md, chain, [t, u], d)
    requires (t.OfClass? || t.OfFactory?) && c.Slot(MetaOf(md, t)).None?
    requires (u.OfClass? || u.OfFactory?) && c.Slot(MetaOf(md, u)).None?
    ensures var r := c.ResolveAll(md, chain, [t, u], w, d);
      r.result.Ok? ==> |r.result.value| == 2 && r.result.value[0].id < r.result.value[1].id
  {
    assert Resolvable(md, chain, [t, u][0], d) && Resolvable(md, chain, [t, u][1], d);
    var first := c.ResolveSpec(md, chain, t, w, d);
    FreshOnMiss(c, md, chain, t, w, d);
    FreshOnMiss(c, md, chain, u, first.world, d);
    assert [t, u][1..] == [u] && [u][1..] == [];
    c.ResolveAllStep(md, chain, [t, u], w, d);
    c.ResolveAllStep(md, chain, [u], first.world, d);
    var second := c.ResolveSpec(md, chain, u, first.world, d);
    var r := c.ResolveAll(md, chain, [t, u], w, d);
    if r.result.Ok? {
      assert r.result.value == [first.result.value] + ([second.result.value] + []);
    }
  }
}
