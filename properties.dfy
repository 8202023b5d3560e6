/** What resolution guarantees, stated over the specification functions of
    the container: which caches and keys it may write, that it never drops
    a cached instance, that a miss builds a new object, that a cached
    instance is returned again, and how scopes share instances across a
    container tree. */
module Properties {
  import opened Types
  import opened Cache
  import opened Metadata
  import opened Container

  /** The instance keys a resolution of `t` may store under: the key of
      every factory target and decorated class it may construct. */
  ghost function Touches(md: Metadata, chain: Chain, t: Target, d: nat): set<InstanceKey>
    requires Resolvable(md, chain, t, d)
    decreases d, 0, 0
  {
    match t
    case OfToken(id) =>
      var provider := Nearest(chain, id);
      if provider.None? then {} else Touches(md, chain, provider.value, d - 1)
    case OfFactory(f) => {f.key} + TouchesAll(md, chain, f.factory.resolves, d - 1)
    case OfClass(cls) =>
      var meta := GetInstanceMeta(md, cls);
      (if meta.Some? then {meta.value.key} else {}) +
      (if !md.classes[cls].builtIn && |ParamTypes(md, cls)| == md.classes[cls].length
       then TouchesAll(md, chain, Dependencies(md, cls), d - 1) else {})
  }

  ghost function TouchesAll(md: Metadata, chain: Chain, targets: seq<Target>, d: nat): set<InstanceKey>
    requires AllResolvable(md, chain, targets, d)
    decreases d, 1, |targets|
  {
    if targets == [] then {} else Touches(md, chain, targets[0], d) + TouchesAll(md, chain, targets[1..], d)
  }

  /** `w'` is a world a resolution by `c` may leave behind from `w`: no
      cached instance is lost or replaced, only the two caches `c` uses
      change, new entries appear only under `keys`, and every cached
      instance still has an id below the allocator's next id. */
  ghost predicate Grows(c: DIContainer, keys: set<InstanceKey>, w: World, w': World) {
    && Extends(w, w')
    && (forall s :: s in w.stores && s != c.instanceCache && s != c.Root().instanceCache ==>
          s in w'.stores && w'.stores[s] == w.stores[s])
    && (forall s, k :: s in w.stores && s in w'.stores && k in w'.stores[s] && k !in w.stores[s] ==> k in keys)
    && (IdsBelow(w) ==> IdsBelow(w'))
  }

  lemma GrowsTransitive(c: DIContainer, keys: set<InstanceKey>, keys': set<InstanceKey>, w: World, w': World, w'': World)
    requires Grows(c, keys, w, w') && Grows(c, keys', w', w'')
    ensures Grows(c, keys + keys', w, w'')
  {
  }

  lemma GrowsWider(c: DIContainer, keys: set<InstanceKey>, keys': set<InstanceKey>, w: World, w': World)
    requires Grows(c, keys, w, w') && keys <= keys'
    ensures Grows(c, keys', w, w')
  {
  }

  /** Building and storing an instance writes at most its own key, into the
      cache its scope selects: every other cache is left as it was. */
  lemma ConstructGrows(c: DIContainer, meta: Option<InstanceMeta>, origin: Origin, args: Resolution<seq<Instance>>)
    requires args.result.Ok?
    ensures Grows(c, if meta.Some? then {meta.value.key} else {}, args.world, c.Construct(meta, origin, args).world)
    ensures var w' := c.Construct(meta, origin, args).world;
      forall s :: s in args.world.stores && (c.Slot(meta).None? || s != c.Slot(meta).value) ==>
        s in w'.stores && w'.stores[s] == args.world.stores[s]
    ensures var w' := c.Construct(meta, origin, args).world;
      forall s, k :: s in args.world.stores && s in w'.stores && k in w'.stores[s] && k !in args.world.stores[s] ==>
        c.Slot(meta).Some? && s == c.Slot(meta).value && k == meta.value.key
  {
  }

  /** Resolution only grows the world: see `Grows`; a resolved instance
      has an id below the allocator's next id. */
  lemma {:induction false} ResolveGrows(c: DIContainer, md: Metadata, chain: Chain, t: Target, w: World, d: nat)
    requires c.Valid() && Resolvable(md, chain, t, d)
    decreases d, 0, 1
    ensures var r := c.ResolveSpec(md, chain, t, w, d);
      && Grows(c, Touches(md, chain, t, d), w, r.world)
      && (IdsBelow(w) && r.result.Ok? ==> r.result.value.id < r.world.next)
  {
    match t
    case OfToken(id) =>
      if Nearest(chain, id).Some? {
        ResolveGrows(c, md, chain, Nearest(chain, id).value, w, d - 1);
      }
    case OfFactory(f) => FactoryGrows(c, md, chain, f, w, d);
    case OfClass(cls) => ClassGrows(c, md, chain, cls, w, d);
  }

  lemma {:induction false} FactoryGrows(c: DIContainer, md: Metadata, chain: Chain, f: FactoryTarget, w: World, d: nat)
    requires c.Valid() && Resolvable(md, chain, OfFactory(f), d)
    decreases d, 0, 0
    ensures var r := c.ResolveFactorySpec(md, chain, f, w, d);
      && Grows(c, Touches(md, chain, OfFactory(f), d), w, r.world)
      && (IdsBelow(w) && r.result.Ok? ==> r.result.value.id < r.world.next)
  {
    var meta := Some(InstanceMeta(f.key, f.scope));
    var keys := Touches(md, chain, OfFactory(f), d);
    if c.Cached(w, meta).None? {
      var args := c.ResolveAll(md, chain, f.factory.resolves, w, d - 1);
      AllGrows(c, md, chain, f.factory.resolves, w, d - 1);
      GrowsWider(c, TouchesAll(md, chain, f.factory.resolves, d - 1), keys, w, args.world);
      if args.result.Ok? {
        ConstructGrows(c, meta, Built(f.key), args);
        GrowsTransitive(c, keys, {f.key}, w, args.world, c.Construct(meta, Built(f.key), args).world);
        assert keys + {f.key} == keys;
      }
    }
  }

  lemma {:induction false} ClassGrows(c: DIContainer, md: Metadata, chain: Chain, cls: ClassId, w: World, d: nat)
    requires c.Valid() && Resolvable(md, chain, OfClass(cls), d)
    decreases d, 0, 0
    ensures var r := c.ResolveClassSpec(md, chain, cls, w, d);
      && Grows(c, Touches(md, chain, OfClass(cls), d), w, r.world)
      && (IdsBelow(w) && r.result.Ok? ==> r.result.value.id < r.world.next)
  {
    var meta := GetInstanceMeta(md, cls);
    var keys := Touches(md, chain, OfClass(cls), d);
    if c.Cached(w, meta).None? && !md.classes[cls].builtIn && |ParamTypes(md, cls)| == md.classes[cls].length {
      var deps := Dependencies(md, cls);
      var args := c.ResolveAll(md, chain, deps, w, d - 1);
      AllGrows(c, md, chain, deps, w, d - 1);
      GrowsWider(c, TouchesAll(md, chain, deps, d - 1), keys, w, args.world);
      if args.result.Ok? {
        var own := if meta.Some? then {meta.value.key} else {};
        ConstructGrows(c, meta, Constructed(cls), args);
        GrowsTransitive(c, keys, own, w, args.world, c.Construct(meta, Constructed(cls), args).world);
        assert keys + own == keys;
      }
    }
  }

  lemma {:induction false} AllGrows(c: DIContainer, md: Metadata, chain: Chain, targets: seq<Target>, w: World, d: nat)
    requires c.Valid() && AllResolvable(md, chain, targets, d)
    decreases d, 1, |targets|
    ensures var r := c.ResolveAll(md, chain, targets, w, d);
      && Grows(c, TouchesAll(md, chain, targets, d), w, r.world)
      && (r.result.Ok? ==> |r.result.value| == |targets|)
      && (IdsBelow(w) && r.result.Ok? ==> forall i :: 0 <= i < |targets| ==> r.result.value[i].id < r.world.next)
  {
    if targets != [] {
      var keys := TouchesAll(md, chain, targets, d);
      var first := c.ResolveSpec(md, chain, targets[0], w, d);
      ResolveGrows(c, md, chain, targets[0], w, d);
      GrowsWider(c, Touches(md, chain, targets[0], d), keys, w, first.world);
      if first.result.Ok? {
        var rest := c.ResolveAll(md, chain, targets[1..], first.world, d);
        AllGrows(c, md, chain, targets[1..], first.world, d);
        GrowsTransitive(c, keys, TouchesAll(md, chain, targets[1..], d), w, first.world, rest.world);
        assert keys + TouchesAll(md, chain, targets[1..], d) == keys;
        if IdsBelow(w) && rest.result.Ok? {
          assert first.result.value.id < rest.world.next;
          var r := c.ResolveAll(md, chain, targets, w, d);
          assert r.result.value == [first.result.value] + rest.result.value;
        }
      }
    }
  }

  /** A cache hit is answered before anything else is checked or built:
      the stored instance is returned and the world is left as it was. */
  lemma CacheHitFirst(c: DIContainer, md: Metadata, chain: Chain, t: Target, w: World, d: nat)
    requires c.Valid() && Resolvable(md, chain, t, d) && (t.OfClass? || t.OfFactory?)
    requires c.Cached(w, MetaOf(md, t)).Some?
    ensures c.ResolveSpec(md, chain, t, w, d) == Resolution(Ok(c.Cached(w, MetaOf(md, t)).value), w)
  {
  }

  /** The instance metadata that selects the cache of a class or factory target. */
  ghost function MetaOf(md: Metadata, t: Target): Option<InstanceMeta>
    requires t.OfClass? || t.OfFactory?
  {
    if t.OfClass? then GetInstanceMeta(md, t.cls) else Some(InstanceMeta(t.target.key, t.target.scope))
  }

  /** After a cache miss a class is rejected as a built-in constructor
      before its arity is compared, and either rejection happens before any
      dependency is resolved: the world is unchanged. */
  lemma ClassCheckOrder(c: DIContainer, md: Metadata, chain: Chain, cls: ClassId, w: World, d: nat)
    requires c.Valid() && Resolvable(md, chain, OfClass(cls), d)
    requires c.Cached(w, GetInstanceMeta(md, cls)).None?
    ensures var r := c.ResolveSpec(md, chain, OfClass(cls), w, d);
      && (md.classes[cls].builtIn ==> r == Resolution(Err(BuiltInConstructor(cls, c.name)), w))
      && (!md.classes[cls].builtIn && |ParamTypes(md, cls)| != md.classes[cls].length ==>
            r == Resolution(Err(DependencyMismatch(cls)), w))
      && (r.result.Ok? ==> !md.classes[cls].builtIn && |ParamTypes(md, cls)| == md.classes[cls].length)
  {
  }

  /** On a cache miss a class or factory target yields a new object: its id
      is one the allocator had not issued before, so it differs from every
      instance cached beforehand. */
  lemma {:induction false} FreshOnMiss(c: DIContainer, md: Metadata, chain: Chain, t: Target, w: World, d: nat)
    requires c.Valid() && Resolvable(md, chain, t, d) && (t.OfClass? || t.OfFactory?)
    requires c.Cached(w, MetaOf(md, t)).None?
    ensures var r := c.ResolveSpec(md, chain, t, w, d);
      r.result.Ok? ==>
        && w.next <= r.result.value.id < r.world.next
        && (IdsBelow(w) ==> forall s, k :: s in w.stores && k in w.stores[s] ==> w.stores[s][k] != r.result.value)
  {
    var r := c.ResolveSpec(md, chain, t, w, d);
    ResolveGrows(c, md, chain, t, w, d);
    if r.result.Ok? {
      if t.OfClass? {
        AllGrows(c, md, chain, Dependencies(md, t.cls), w, d - 1);
      } else {
        AllGrows(c, md, chain, t.target.factory.resolves, w, d - 1);
      }
    }
  }

  /** With the scope's cache present in `w`, a successful resolution of a
      class or factory target with a caching scope leaves the returned
      instance in that cache, provided resolving its own dependencies
      cannot store under the same key (no dependency cycle through it). */
  lemma {:induction false} ResolvedIsCached(c: DIContainer, md: Metadata, chain: Chain, t: Target, w: World, d: nat)
    requires c.Valid() && Resolvable(md, chain, t, d) && (t.OfClass? || t.OfFactory?)
    requires c.Covers(w) && c.Slot(MetaOf(md, t)).Some?
    requires MetaOf(md, t).value.key !in DependencyKeys(md, chain, t, d)
    ensures var r := c.ResolveSpec(md, chain, t, w, d);
      r.result.Ok? ==> c.Cached(r.world, MetaOf(md, t)) == Some(r.result.value)
  {
    var meta := MetaOf(md, t);
    var slot := c.Slot(meta).value;
    var r := c.ResolveSpec(md, chain, t, w, d);
    if c.Cached(w, meta).None? && r.result.Ok? {
      assert slot in w.stores && meta.value.key !in w.stores[slot];
      if t.OfClass? {
        ClassCheckOrder(c, md, chain, t.cls, w, d);
        AllGrows(c, md, chain, Dependencies(md, t.cls), w, d - 1);
      } else {
        AllGrows(c, md, chain, t.target.factory.resolves, w, d - 1);
      }
    }
  }

  /** The keys the dependencies of a class or factory target may store under. */
  ghost function DependencyKeys(md: Metadata, chain: Chain, t: Target, d: nat): set<InstanceKey>
    requires Resolvable(md, chain, t, d) && (t.OfClass? || t.OfFactory?)
  {
    if t.OfFactory? then TouchesAll(md, chain, t.target.factory.resolves, d - 1)
    else if !md.classes[t.cls].builtIn && |ParamTypes(md, t.cls)| == md.classes[t.cls].length
    then TouchesAll(md, chain, Dependencies(md, t.cls), d - 1)
    else {}
  }

  /** Resolving a cached-scope target a second time returns the instance
      the first resolution produced and changes nothing. */
  lemma ResolveAgainIsCached(c: DIContainer, md: Metadata, chain: Chain, t: Target, w: World, d: nat, d': nat)
    requires c.Valid() && Resolvable(md, chain, t, d) && Resolvable(md, chain, t, d') && (t.OfClass? || t.OfFactory?)
    requires c.Covers(w) && c.Slot(MetaOf(md, t)).Some?
    requires MetaOf(md, t).value.key !in DependencyKeys(md, chain, t, d)
    ensures var r := c.ResolveSpec(md, chain, t, w, d);
      r.result.Ok? ==> c.ResolveSpec(md, chain, t, r.world, d') == r
  {
    var r := c.ResolveSpec(md, chain, t, w, d);
    if r.result.Ok? {
      ResolvedIsCached(c, md, chain, t, w, d);
      CacheHitFirst(c, md, chain, t, r.world, d');
    }
  }

  /** The world in which `ResolveAll` resolves `targets[i]`: the one the
      first `i` targets left behind. */
  ghost function WorldBefore(c: DIContainer, md: Metadata, chain: Chain, targets: seq<Target>, w: World, d: nat, i: nat): World
    requires c.Valid() && AllResolvable(md, chain, targets, d) && i <= |targets|
    decreases i
  {
    if i == 0 then w
    else WorldBefore(c, md, chain, targets[1..], c.ResolveSpec(md, chain, targets[0], w, d).world, d, i - 1)
  }

  /** A successful `ResolveAll` returns, at each position, the instance its
      target resolves to in the world the earlier targets left behind:
      targets are resolved left to right and their results kept in order. */
  lemma {:induction false} ResolveAllPointwise(c: DIContainer, md: Metadata, chain: Chain, targets: seq<Target>, w: World, d: nat)
    requires c.Valid() && AllResolvable(md, chain, targets, d)
    decreases |targets|
    ensures var r := c.ResolveAll(md, chain, targets, w, d);
      r.result.Ok? ==>
        && |r.result.value| == |targets|
        && forall i :: 0 <= i < |targets| ==>
             var ri := c.ResolveSpec(md, chain, targets[i], WorldBefore(c, md, chain, targets, w, d, i), d);
             ri.result.Ok? && r.result.value[i] == ri.result.value
  {
    if targets != [] {
      var first := c.ResolveSpec(md, chain, targets[0], w, d);
      if first.result.Ok? {
        var r := c.ResolveAll(md, chain, targets, w, d);
        var rest := c.ResolveAll(md, chain, targets[1..], first.world, d);
        ResolveAllPointwise(c, md, chain, targets[1..], first.world, d);
        if r.result.Ok? {
          assert r.result.value == [first.result.value] + rest.result.value;
          forall i | 1 <= i < |targets|
            ensures var ri := c.ResolveSpec(md, chain, targets[i], WorldBefore(c, md, chain, targets, w, d, i), d);
              ri.result.Ok? && r.result.value[i] == ri.result.value
          {
            assert targets[i] == targets[1..][i - 1];
            assert WorldBefore(c, md, chain, targets, w, d, i) == WorldBefore(c, md, chain, targets[1..], first.world, d, i - 1);
          }
        }
      }
    }
  }

  /** A class built on a cache miss is constructed from its own class, with
      one argument per dependency: argument `i` is what dependency `i`
      (the `@Inject` override at that index, or else the declared
      parameter type) resolves to after the dependencies before it. */
  lemma ClassArguments(c: DIContainer, md: Metadata, chain: Chain, cls: ClassId, w: World, d: nat)
    requires c.Valid() && Resolvable(md, chain, OfClass(cls), d)
    requires c.Cached(w, GetInstanceMeta(md, cls)).None?
    ensures var r := c.ResolveSpec(md, chain, OfClass(cls), w, d);
      r.result.Ok? ==>
        && !md.classes[cls].builtIn
        && r.result.value.origin == Constructed(cls)
        && |r.result.value.args| == |ParamTypes(md, cls)| == md.classes[cls].length
        && forall i :: 0 <= i < |r.result.value.args| ==>
             var deps := Dependencies(md, cls);
             c.ResolveSpec(md, chain, deps[i], WorldBefore(c, md, chain, deps, w, d - 1, i), d - 1).result ==
               Ok(r.result.value.args[i])
  {
    var r := c.ResolveSpec(md, chain, OfClass(cls), w, d);
    if r.result.Ok? {
      ClassCheckOrder(c, md, chain, cls, w, d);
      ResolveAllPointwise(c, md, chain, Dependencies(md, cls), w, d - 1);
    }
  }
}
