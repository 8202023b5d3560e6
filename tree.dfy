/** The container tree and token registration: every container reaches the
    same root as its ancestors, each has caches of its own, a token is
    found in the nearest container that registered it, and a batch of
    registrations stops at its first invalid entry. */
module Tree {
  import opened Types
  import opened Cache
  import opened Container

  /** A container followed by its ancestors, nearest first. */
  ghost function Lineage(c: DIContainer): (r: seq<DIContainer>)
    ensures |r| == |c.ancestors| + 1 && r[0] == c && r[1..] == c.ancestors
  {
    [c] + c.ancestors
  }

  /** Every ancestor is itself a valid container whose ancestors follow it
      in the chain. */
  lemma {:induction false} AncestorsValid(c: DIContainer)
    requires c.Valid()
    decreases |c.ancestors|
    ensures forall k :: 0 <= k < |c.ancestors| ==> c.ancestors[k].Valid() && c.ancestors[k].ancestors == c.ancestors[k + 1..]
  {
    if c.parent != null {
      AncestorsValid(c.parent);
      forall k | 0 <= k < |c.ancestors|
        ensures c.ancestors[k].Valid() && c.ancestors[k].ancestors == c.ancestors[k + 1..]
      {
        if k > 0 {
          assert c.ancestors[k] == c.parent.ancestors[k - 1];
          assert c.ancestors[k + 1..] == c.parent.ancestors[k..];
        }
      }
    }
  }

  /** The root of a container is the last container of its lineage: it has
      no parent, and every ancestor reaches the same root. */
  lemma {:induction false} RootIsTop(c: DIContainer)
    requires c.Valid()
    decreases |c.ancestors|
    ensures c.Root() == Lineage(c)[|c.ancestors|]
    ensures c.Root().Valid() && c.Root().parent == null
    ensures forall a :: a in c.ancestors ==> a.Root() == c.Root()
  {
    if c.parent != null {
      RootIsTop(c.parent);
    }
  }

  /** A child's instance cache is neither its parent's nor the root's, so a
      local singleton of the child is never one of the parent's and a
      store in the root leaves the child's own cache alone. */
  lemma CachesOfChild(c: DIContainer)
    requires c.Valid() && c.parent != null
    ensures c.instanceCache != c.parent.instanceCache
    ensures c.instanceCache != c.Root().instanceCache
    ensures c.instanceCache != c.parent.Root().instanceCache
    ensures c.Root() == c.parent.Root()
  {
    RootIsTop(c);
    assert c.Root() in c.ancestors;
  }

  /** The token caches a lookup reads are those of the lineage. */
  lemma {:induction false} TokenCachesOfLineage(c: DIContainer)
    requires c.Valid()
    decreases |c.ancestors|
    ensures c.TokenCaches() == set a | a in Lineage(c) :: a.tokenCache
  {
    if c.parent != null {
      TokenCachesOfLineage(c.parent);
      assert Lineage(c) == [c] + Lineage(c.parent);
    }
  }

  /** A lookup from a container never reads the token cache of one of its
      descendants, at any depth: a token registered only in a descendant is
      not found from any of its ancestors. */
  lemma DescendantUnseen(c: DIContainer)
    requires c.Valid()
    ensures forall a :: a in c.ancestors ==> a.Valid() && c.tokenCache !in a.TokenCaches()
  {
    AncestorsValid(c);
    forall a | a in c.ancestors
      ensures a.Valid() && c.tokenCache !in a.TokenCaches()
    {
      var k :| 0 <= k < |c.ancestors| && c.ancestors[k] == a;
      TokenCachesOfLineage(a);
      assert Lineage(a) == c.ancestors[k..];
    }
  }

  /** The k-th registry searched belongs to the k-th container of the lineage. */
  lemma {:induction false} RegistriesOfLineage(c: DIContainer)
    requires c.Valid()
    decreases |c.ancestors|
    ensures forall k :: 0 <= k < |Lineage(c)| ==> c.Registries()[k] == Lineage(c)[k].tokenCache.storage
  {
    if c.parent != null {
      RegistriesOfLineage(c.parent);
      forall k | 1 <= k < |Lineage(c)|
        ensures c.Registries()[k] == Lineage(c)[k].tokenCache.storage
      {
        assert c.Registries()[k] == c.parent.Registries()[k - 1];
        assert Lineage(c)[k] == Lineage(c.parent)[k - 1];
      }
    }
  }

  /** The k-th name of a trace is the name of the k-th container of the lineage. */
  lemma {:induction false} NamesOfLineage(c: DIContainer)
    requires c.Valid()
    decreases |c.ancestors|
    ensures forall k :: 0 <= k < |Lineage(c)| ==> c.Names()[k] == Lineage(c)[k].name
  {
    if c.parent != null {
      NamesOfLineage(c.parent);
      forall k | 1 <= k < |Lineage(c)|
        ensures c.Names()[k] == Lineage(c)[k].name
      {
        assert c.Names()[k] == c.parent.Names()[k - 1];
        assert Lineage(c)[k] == Lineage(c.parent)[k - 1];
      }
    }
  }

  /** `Nearest` finds a registration exactly when some registry has one,
      and then it is the one in the first such registry. */
  lemma {:induction false} NearestFirst(chain: Chain, id: TokenIdentifier)
    ensures Nearest(chain, id).None? <==> forall k :: 0 <= k < |chain| ==> id !in chain[k]
    ensures forall k :: 0 <= k < |chain| && id in chain[k] && (forall j :: 0 <= j < k ==> id !in chain[j]) ==>
      Nearest(chain, id) == Some(chain[k][id])
  {
    if chain != [] {
      NearestFirst(chain[1..], id);
      assert forall k :: 1 <= k < |chain| ==> chain[k] == chain[1..][k - 1];
      if id !in chain[0] {
        assert (forall k :: 0 <= k < |chain| ==> id !in chain[k]) <==> (forall k :: 0 <= k < |chain[1..]| ==> id !in chain[1..][k]);
      }
    }
  }

  /** Token lookup from `c`: the registration of the first container on the
      way to the root that has the token wins, shadowing those above it. */
  lemma LookupNearest(c: DIContainer, id: TokenIdentifier, k: nat)
    requires c.Valid() && k < |Lineage(c)| && id in Lineage(c)[k].tokenCache.storage
    requires forall j :: 0 <= j < k ==> id !in Lineage(c)[j].tokenCache.storage
    ensures c.ResolveToken(id, []) == Ok(Lineage(c)[k].tokenCache.storage[id])
  {
    RegistriesOfLineage(c);
    NearestFirst(c.Registries(), id);
  }

  /** When no container on the way to the root has the token, the lookup
      fails and its trace names the containers from the requester up to
      the root, in that order. */
  lemma LookupTrace(c: DIContainer, id: TokenIdentifier)
    requires c.Valid()
    requires forall j :: 0 <= j < |Lineage(c)| ==> id !in Lineage(c)[j].tokenCache.storage
    ensures var r := c.ResolveToken(id, []);
      && r.Err? && r.error.UnresolvedToken? && r.error.token == id
      && |r.error.trace| == |Lineage(c)|
      && (forall j :: 0 <= j < |Lineage(c)| ==> r.error.trace[j] == Lineage(c)[j].name)
  {
    RegistriesOfLineage(c);
    NamesOfLineage(c);
    NearestFirst(c.Registries(), id);
    assert [] + c.Names() == c.Names();
  }

  /** A batch of registrations succeeds exactly when every entry is valid. */
  lemma {:induction false} RegisterAllOk(m: map<TokenIdentifier, Target>, tokens: seq<RegisterToken>)
    decreases |tokens|
    ensures RegisterAll(m, tokens).1.Ok? <==> forall i :: 0 <= i < |tokens| ==> Registration(tokens[i]).Ok?
  {
    if tokens != [] && Registration(tokens[0]).Ok? {
      var t := Registration(tokens[0]).value;
      RegisterAllOk(m[t.identifier := t.target], tokens[1..]);
      assert forall i :: 1 <= i < |tokens| ==> tokens[i] == tokens[1..][i - 1];
    }
  }

  /** The first invalid entry stops the batch with its error; the entries
      before it stay registered, the ones after it are never applied. */
  lemma {:induction false} RegisterAllStops(m: map<TokenIdentifier, Target>, tokens: seq<RegisterToken>, k: nat)
    requires k < |tokens| && Registration(tokens[k]).Err?
    requires forall j :: 0 <= j < k ==> Registration(tokens[j]).Ok?
    decreases k
    ensures RegisterAll(m, tokens) == (RegisterAll(m, tokens[..k]).0, Err(InvalidFactory(tokens[k].identifier)))
  {
    if k > 0 {
      var t := Registration(tokens[0]).value;
      assert tokens[1..][..k - 1] == tokens[..k][1..];
      RegisterAllStops(m[t.identifier := t.target], tokens[1..], k - 1);
    }
  }

  /** After a successful batch an identifier holds the target of the last
      entry registering it, and keeps its earlier target when no entry
      registers it. */
  lemma {:induction false} RegisterAllLastWins(m: map<TokenIdentifier, Target>, tokens: seq<RegisterToken>, id: TokenIdentifier)
    requires forall i :: 0 <= i < |tokens| ==> Registration(tokens[i]).Ok?
    decreases |tokens|
    ensures var after := RegisterAll(m, tokens).0;
      (forall i :: 0 <= i < |tokens| ==> tokens[i].identifier != id) ==>
        (id in after <==> id in m) && (id in m ==> after[id] == m[id])
    ensures var after := RegisterAll(m, tokens).0;
      forall i :: 0 <= i < |tokens| && tokens[i].identifier == id && Unregistered(tokens[i + 1..], id) ==>
        id in after && after[id] == Registration(tokens[i]).value.target
  {
    if tokens != [] {
      var t := Registration(tokens[0]).value;
      var m' := m[t.identifier := t.target];
      assert forall i :: 1 <= i < |tokens| ==> tokens[i] == tokens[1..][i - 1] && tokens[i + 1..] == tokens[1..][i..];
      RegisterAllLastWins(m', tokens[1..], id);
    }
  }

  /** No entry of `tokens` registers `id`. */
  ghost predicate Unregistered(tokens: seq<RegisterToken>, id: TokenIdentifier) {
    forall j :: 0 <= j < |tokens| ==> tokens[j].identifier != id
  }
}
