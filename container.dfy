/** The dependency-injection container: a tree of containers, each owning
    an instance cache and a token cache, and the resolution engine that
    turns a class, a factory target or a token into an instance. */
module Container {
  import opened Types
  import opened Cache
  import opened Metadata

  /** The source of fresh object identities, standing for JavaScript's `new`. */
  class Allocator {
    var next: nat

    constructor ()
      ensures next == 0
    {
      next := 0;
    }

    method Allocate() returns (id: nat)
      modifies this
      ensures id == old(next) && next == old(next) + 1
    {
      id := next;
      next := next + 1;
    }
  }

  /** The part of the heap a resolution can observe and change: the
      contents of the instance caches it may use and the next object id. */
  datatype World = World(stores: map<InstanceCache?, map<InstanceKey, Instance>>, next: nat)

  datatype Resolution<T> = Resolution(result: Result<T>, world: World)

  /** `w'` keeps every cache of `w` and every entry in them, and allocates no fewer ids. */
  ghost predicate Extends(w: World, w': World) {
    && w.next <= w'.next
    && w'.stores.Keys == w.stores.Keys
    && forall s, k :: s in w.stores && k in w.stores[s] ==> k in w'.stores[s] && w'.stores[s][k] == w.stores[s][k]
  }

  /** Every cached instance was allocated before `w.next`. */
  ghost predicate IdsBelow(w: World) {
    forall s, k :: s in w.stores && k in w.stores[s] ==> w.stores[s][k].id < w.next
  }

  /** The token registries of a container and its ancestors, nearest first. */
  type Chain = seq<map<TokenIdentifier, Target>>

  /** The dependency graph below `t`, with tokens looked up in `chain`, has
      height below `d`: resolution of `t` terminates. */
  ghost predicate Resolvable(md: Metadata, chain: Chain, t: Target, d: nat)
    decreases d
  {
    && d > 0
    && match t
      case OfToken(id) =>
        var provider := Nearest(chain, id);
        provider.Some? ==> Resolvable(md, chain, provider.value, d - 1)
      case OfFactory(f) =>
        forall i :: 0 <= i < |f.factory.resolves| ==> Resolvable(md, chain, f.factory.resolves[i], d - 1)
      case OfClass(cls) =>
        && cls in md.classes
        && (!md.classes[cls].builtIn && |ParamTypes(md, cls)| == md.classes[cls].length ==>
              forall i :: 0 <= i < |Dependencies(md, cls)| ==> Resolvable(md, chain, Dependencies(md, cls)[i], d - 1))
  }

  /** `targets` can all be resolved within `d` nested steps. */
  ghost predicate AllResolvable(md: Metadata, chain: Chain, targets: seq<Target>, d: nat) {
    forall i :: 0 <= i < |targets| ==> Resolvable(md, chain, targets[i], d)
  }

  /** The error of `o`, or its values prefixed by `done`: how a partly
      finished left-to-right resolution relates to the remaining one. */
  ghost function Prefixed(done: seq<Instance>, o: Resolution<seq<Instance>>): Resolution<seq<Instance>> {
    if o.result.Ok? then Resolution(Ok(done + o.result.value), o.world) else o
  }

  lemma PrefixedNothing(o: Resolution<seq<Instance>>)
    ensures Prefixed([], o) == o
  {
    if o.result.Ok? {
      assert [] + o.result.value == o.result.value;
    }
  }

  lemma PrefixedTwice(done: seq<Instance>, more: seq<Instance>, o: Resolution<seq<Instance>>)
    ensures Prefixed(done, Prefixed(more, o)) == Prefixed(done + more, o)
  {
    if o.result.Ok? {
      assert done + (more + o.result.value) == done + more + o.result.value;
    }
  }

  /** The target registered under `id` in the first registry, nearest
      first, that has one. */
  ghost function Nearest(registries: Chain, id: TokenIdentifier): Option<Target> {
    if registries == [] then None
    else if id in registries[0] then Some(registries[0][id])
    else Nearest(registries[1..], id)
  }

  /** What `registerToken` stores for `token`, or the error it throws: a
      class is stored as given, a factory declaring at most one parameter
      is stored as a factory target keyed by the token's identifier. */
  function Registration(token: RegisterToken): (r: Result<Token>)
    ensures r.Ok? <==> token.ClassToken? || token.factory.arity <= 1
    ensures r.Ok? ==> r.value.identifier == token.identifier
    ensures r.Ok? && token.ClassToken? ==> r.value.target == OfClass(token.cls)
    ensures r.Ok? && token.FactoryToken? ==>
      r.value.target == OfFactory(FactoryTarget(token.identifier, token.scope, token.factory))
    ensures r.Err? ==> r.error == InvalidFactory(token.identifier)
  {
    match token
    case ClassToken(identifier, cls) => Ok(Token(identifier, OfClass(cls)))
    case FactoryToken(identifier, factory, scope) =>
      if factory.arity <= 1 then Ok(Token(identifier, OfFactory(FactoryTarget(identifier, scope, factory))))
      else Err(InvalidFactory(identifier))
  }

  /** The registry after `registerTokens`, and whether it threw: entries are
      applied in order and the first invalid one stops the rest, leaving the
      earlier ones in place. */
  function RegisterAll(m: map<TokenIdentifier, Target>, tokens: seq<RegisterToken>): (map<TokenIdentifier, Target>, Result<()>)
    decreases |tokens|
  {
    if tokens == [] then (m, Ok(()))
    else match Registration(tokens[0])
      case Err(e) => (m, Err(e))
      case Ok(t) => RegisterAll(m[t.identifier := t.target], tokens[1..])
  }

  class DIContainer {
    const name: string
    const parent: DIContainer?
    const root: DIContainer?
    const instanceCache: InstanceCache
    const tokenCache: TokenCache
    /** The parent, the parent's parent, ..., up to the root. */
    ghost const ancestors: seq<DIContainer>

    /** A container without a parent is a root and has no root reference;
        a child's root is its parent's root, and its caches are its own. */
    ghost predicate Valid()
      decreases |ancestors|
    {
      if parent == null then
        ancestors == [] && root == null
      else
        && ancestors == [parent] + parent.ancestors
        && parent.Valid()
        && root == parent.Root()
        && forall a :: a in ancestors ==> a.instanceCache != instanceCache && a.tokenCache != tokenCache
    }

    /** `this.root || this`: the container whose cache holds singletons. */
    function Root(): DIContainer {
      if root == null then this else root
    }

    constructor (name: string, parent: DIContainer?, root: DIContainer?)
      requires parent == null ==> root == null
      requires parent != null ==> parent.Valid() && root == (if parent.parent != null then parent.root else parent)
      ensures Valid()
      ensures this.name == name && this.parent == parent && this.root == root
      ensures fresh(instanceCache) && fresh(tokenCache)
      ensures instanceCache.storage == map[] && tokenCache.storage == map[]
    {
      this.name := name;
      this.parent := parent;
      this.root := root;
      instanceCache := new InstanceCache();
      tokenCache := new TokenCache();
      ancestors := if parent == null then [] else [parent] + parent.ancestors;
    }

    /** A new container whose parent is this one and whose root is this
        one's root (this one itself when it has no parent). */
    method CreateChildContainer(name: string) returns (child: DIContainer)
      requires Valid()
      ensures fresh(child) && fresh(child.instanceCache) && fresh(child.tokenCache)
      ensures child.Valid()
      ensures child.name == name && child.parent == this
      ensures child.root == (if parent != null then root else this)
      ensures child.Root() == Root()
      ensures child.instanceCache.storage == map[] && child.tokenCache.storage == map[]
    {
      child := new DIContainer(name, this, if parent != null then root else this);
    }

    ghost function TokenCaches(): set<TokenCache>
      requires Valid()
      decreases |ancestors|
    {
      {tokenCache} + if parent == null then {} else parent.TokenCaches()
    }

    /** Every token cache on the way to the root already exists, so a
        method that does not name one in its frame leaves it unchanged. */
    lemma TokenCachesAllocated()
      requires Valid()
      decreases |ancestors|
      ensures forall tc :: tc in TokenCaches() ==> allocated(tc)
    {
      if parent != null {
        parent.TokenCachesAllocated();
      }
    }

    /** The token registries from this container up to the root, nearest first. */
    ghost function Registries(): (r: Chain)
      requires Valid()
      reads TokenCaches()
      decreases |ancestors|
      ensures |r| == |ancestors| + 1 && r[0] == tokenCache.storage
      ensures parent != null ==> r[1..] == parent.Registries()
    {
      [tokenCache.storage] + if parent == null then [] else parent.Registries()
    }

    /** The container names from this container up to the root. */
    ghost function Names(): (r: seq<string>)
      requires Valid()
      decreases |ancestors|
      ensures |r| == |ancestors| + 1 && r[0] == name
      ensures parent != null ==> r[1..] == parent.Names()
    {
      [name] + if parent == null then [] else parent.Names()
    }

    /** The trace of a token lookup extended by this container's name. */
    function TraceChild(childTrace: seq<string>): (r: seq<string>)
      ensures |r| == |childTrace| + 1 && r[..|childTrace|] == childTrace && r[|childTrace|] == name
    {
      childTrace + [name]
    }

    /** Token lookup: the nearest registration on the way to the root wins;
        when no container on that way has the token, the error carries the
        names of the containers visited, requester first. */
    function ResolveToken(id: TokenIdentifier, childTrace: seq<string>): (r: Result<Target>)
      requires Valid()
      reads TokenCaches()
      decreases |ancestors|
      ensures r.Ok? <==> Nearest(Registries(), id).Some?
      ensures r.Ok? ==> r.value == Nearest(Registries(), id).value
      ensures r.Err? ==> r.error == UnresolvedToken(id, childTrace + Names())
    {
      if id in tokenCache.storage then
        Ok(tokenCache.storage[id])
      else if parent != null then
        assert Nearest(Registries(), id) == Nearest(parent.Registries(), id);
        assert TraceChild(childTrace) + parent.Names() == childTrace + Names();
        parent.ResolveToken(id, TraceChild(childTrace))
      else
        assert Names() == [name];
        Err(UnresolvedToken(id, TraceChild(childTrace)))
    }

    /** Scope dispatch: the cache a metadata record reads and writes.
        A local singleton uses this container's cache, a singleton the
        root's, and a transient or an undecorated class none. */
    function Slot(meta: Option<InstanceMeta>): (r: Option<InstanceCache>)
      ensures r.None? <==> meta.None? || meta.value.scope == Transient
      ensures meta.Some? && meta.value.scope == LocalSingleton ==> r == Some(instanceCache)
      ensures meta.Some? && meta.value.scope == Singleton ==> r == Some(Root().instanceCache)
    {
      if meta.None? then None
      else match meta.value.scope
        case LocalSingleton => Some(instanceCache)
        case Singleton => Some(Root().instanceCache)
        case Transient => None
    }

    /** The instance cached for `meta` in the cache its scope selects, if any. */
    function RetrieveInstance(meta: Option<InstanceMeta>): (r: Option<Instance>)
      reads instanceCache, Root().instanceCache
      ensures Slot(meta).None? ==> r.None?
      ensures Slot(meta).Some? ==>
        (r.Some? <==> meta.value.key in Slot(meta).value.storage) &&
        (r.Some? ==> r.value == Slot(meta).value.storage[meta.value.key])
    {
      if meta.None? then None
      else if meta.value.scope == LocalSingleton then
        if meta.value.key in instanceCache.storage then Some(instanceCache.storage[meta.value.key]) else None
      else if meta.value.scope == Singleton then
        if meta.value.key in Root().instanceCache.storage then Some(Root().instanceCache.storage[meta.value.key]) else None
      else None
    }

    /** Stores `instance` for `meta` in the cache its scope selects, unless
        that cache already holds a value under the key. */
    method StoreInstance(meta: Option<InstanceMeta>, instance: Instance)
      modifies instanceCache, Root().instanceCache
      ensures instanceCache.storage ==
        if Slot(meta) == Some(instanceCache) then InsertIfAbsent(old(instanceCache.storage), meta.value.key, instance)
        else old(instanceCache.storage)
      ensures Root().instanceCache.storage ==
        if Slot(meta) == Some(Root().instanceCache) then InsertIfAbsent(old(Root().instanceCache.storage), meta.value.key, instance)
        else old(Root().instanceCache.storage)
    {
      if meta.Some? {
        if meta.value.scope == LocalSingleton {
          instanceCache.Store(meta.value.key, instance);
        }
        if meta.value.scope == Singleton {
          Root().instanceCache.Store(meta.value.key, instance);
        }
      }
    }

    /** The abstract state of this container's caches and the allocator. */
    ghost function WorldOf(alloc: Allocator): (w: World)
      reads instanceCache, Root().instanceCache, alloc
      ensures Covers(w) && w.next == alloc.next
      ensures w.stores[instanceCache] == instanceCache.storage && w.stores[Root().instanceCache] == Root().instanceCache.storage
    {
      World(map[instanceCache := instanceCache.storage, Root().instanceCache := Root().instanceCache.storage], alloc.next)
    }

    /** The cache lookup of the method agrees with `Cached` on the world. */
    lemma RetrieveIsCached(meta: Option<InstanceMeta>, alloc: Allocator)
      ensures RetrieveInstance(meta) == Cached(WorldOf(alloc), meta)
    {
    }

    /** A world that holds both caches this container may use. */
    ghost predicate Covers(w: World) {
      instanceCache in w.stores && Root().instanceCache in w.stores
    }

    /** The instance cached for `meta` in `w`, if any. */
    ghost function Cached(w: World, meta: Option<InstanceMeta>): Option<Instance> {
      match Slot(meta)
      case None => None
      case Some(s) => if s in w.stores && meta.value.key in w.stores[s] then Some(w.stores[s][meta.value.key]) else None
    }

    /** `w` after storing `instance` for `meta`. */
    ghost function Remember(w: World, meta: Option<InstanceMeta>, instance: Instance): World {
      match Slot(meta)
      case None => w
      case Some(s) =>
        if s in w.stores then w.(stores := w.stores[s := InsertIfAbsent(w.stores[s], meta.value.key, instance)]) else w
    }

    /** Builds a new instance from resolved arguments after they were all
        resolved, then stores it for `meta`. */
    ghost function Construct(meta: Option<InstanceMeta>, origin: Origin, args: Resolution<seq<Instance>>): (r: Resolution<Instance>)
      requires args.result.Ok?
      ensures r.result == Ok(Instance(args.world.next, origin, args.result.value))
      ensures Extends(args.world, r.world) && r.world.next == args.world.next + 1
      ensures IdsBelow(args.world) ==> IdsBelow(r.world)
    {
      var instance := Instance(args.world.next, origin, args.result.value);
      Resolution(Ok(instance), Remember(args.world.(next := args.world.next + 1), meta, instance))
    }

    /** The resolution algorithm as a function of the world before it, with
        tokens looked up in `chain`: a token's nearest registration is
        resolved in its place; factory targets and classes are resolved below. */
    ghost function ResolveSpec(md: Metadata, chain: Chain, t: Target, w: World, d: nat): Resolution<Instance>
      requires Valid() && Resolvable(md, chain, t, d)
      decreases d, 0, 1
    {
      match t
      case OfToken(id) =>
        var provider := Nearest(chain, id);
        if provider.None? then Resolution(Err(UnresolvedToken(id, Names())), w)
        else ResolveSpec(md, chain, provider.value, w, d - 1)
      case OfFactory(f) => ResolveFactorySpec(md, chain, f, w, d)
      case OfClass(cls) => ResolveClassSpec(md, chain, cls, w, d)
    }

    /** A factory target is answered from the cache its scope selects;
        otherwise the factory resolves its targets through this container,
        builds a new instance, and it is stored according to its scope. */
    ghost function ResolveFactorySpec(md: Metadata, chain: Chain, f: FactoryTarget, w: World, d: nat): Resolution<Instance>
      requires Valid() && Resolvable(md, chain, OfFactory(f), d)
      decreases d, 0, 0
    {
      var meta := Some(InstanceMeta(f.key, f.scope));
      var cached := Cached(w, meta);
      if cached.Some? then Resolution(Ok(cached.value), w)
      else
        var args := ResolveAll(md, chain, f.factory.resolves, w, d - 1);
        if args.result.Err? then Resolution(Err(args.result.error), args.world)
        else
          Construct(meta, Built(f.key), args)
    }

    /** A class is answered from the cache its scope selects; otherwise it
        is rejected when it is a built-in constructor, then when its
        parameter types disagree with its constructor length; then its
        dependencies, with the token overrides in place, are resolved left
        to right, the instance is built and stored according to its scope. */
    ghost function ResolveClassSpec(md: Metadata, chain: Chain, cls: ClassId, w: World, d: nat): Resolution<Instance>
      requires Valid() && Resolvable(md, chain, OfClass(cls), d)
      decreases d, 0, 0
    {
      var meta := GetInstanceMeta(md, cls);
      var cached := Cached(w, meta);
      if cached.Some? then Resolution(Ok(cached.value), w)
      else if md.classes[cls].builtIn then Resolution(Err(BuiltInConstructor(cls, name)), w)
      else if |ParamTypes(md, cls)| != md.classes[cls].length then Resolution(Err(DependencyMismatch(cls)), w)
      else
        var args := ResolveAll(md, chain, Dependencies(md, cls), w, d - 1);
        if args.result.Err? then Resolution(Err(args.result.error), args.world)
        else
          Construct(meta, Constructed(cls), args)
    }

    /** Resolves `targets` left to right, each in the world the previous
        one left behind, stopping at the first error. */
    ghost function ResolveAll(md: Metadata, chain: Chain, targets: seq<Target>, w: World, d: nat): Resolution<seq<Instance>>
      requires Valid() && AllResolvable(md, chain, targets, d)
      decreases d, 1, |targets|
    {
      if targets == [] then Resolution(Ok([]), w)
      else
        var first := ResolveSpec(md, chain, targets[0], w, d);
        if first.result.Err? then Resolution(Err(first.result.error), first.world)
        else
          var rest := ResolveAll(md, chain, targets[1..], first.world, d);
          Prefixed([first.result.value], rest)
    }

    /** One step of `ResolveAll`: the first target, then the rest. */
    lemma ResolveAllStep(md: Metadata, chain: Chain, targets: seq<Target>, w: World, d: nat)
      requires Valid() && AllResolvable(md, chain, targets, d) && targets != []
      ensures var first := ResolveSpec(md, chain, targets[0], w, d);
        ResolveAll(md, chain, targets, w, d) ==
          if first.result.Err? then Resolution(Err(first.result.error), first.world)
          else Prefixed([first.result.value], ResolveAll(md, chain, targets[1..], first.world, d))
    {
    }

    /** Resolves `target` from this container; `chain` names the token
        registries on the way to the root. */
    method Resolve(md: Metadata, target: Target, alloc: Allocator, ghost chain: Chain, ghost d: nat) returns (r: Result<Instance>)
      requires Valid() && WellFormed(md) && chain == Registries() && Resolvable(md, chain, target, d)
      modifies instanceCache, Root().instanceCache, alloc
      decreases d, 0, 1
      ensures var o := ResolveSpec(md, chain, target, old(WorldOf(alloc)), d);
        r == o.result && WorldOf(alloc) == o.world
    {
      match target
      case OfToken(id) =>
        var provider := ResolveToken(id, []);
        assert [] + Names() == Names();
        if provider.Err? {
          return Err(provider.error);
        }
        r := Resolve(md, provider.value, alloc, chain, d - 1);
      case OfFactory(f) =>
        r := ResolveFactory(md, f, alloc, chain, d);
      case OfClass(cls) =>
        r := ResolveClass(md, cls, alloc, chain, d);
    }

    /** Resolves a factory target: cache lookup, then the factory, then the store. */
    method ResolveFactory(md: Metadata, f: FactoryTarget, alloc: Allocator, ghost chain: Chain, ghost d: nat) returns (r: Result<Instance>)
      requires Valid() && WellFormed(md) && chain == Registries() && Resolvable(md, chain, OfFactory(f), d)
      modifies instanceCache, Root().instanceCache, alloc
      decreases d, 0, 0
      ensures var o := ResolveFactorySpec(md, chain, f, old(WorldOf(alloc)), d);
        r == o.result && WorldOf(alloc) == o.world
    {
      var meta := Some(InstanceMeta(f.key, f.scope));
      var cached := RetrieveInstance(meta);
      RetrieveIsCached(meta, alloc);
      if cached.Some? {
        return Ok(cached.value);
      }
      var args := ResolveEach(md, f.factory.resolves, alloc, chain, d - 1);
      if args.Err? {
        return Err(args.error);
      }
      var instance := Build(meta, Built(f.key), args.value, alloc);
      r := Ok(instance);
    }

    /** Resolves a class: cache lookup, the built-in and arity checks, the
        overrides, the dependencies in order, construction, then the store. */
    method ResolveClass(md: Metadata, cls: ClassId, alloc: Allocator, ghost chain: Chain, ghost d: nat) returns (r: Result<Instance>)
      requires Valid() && WellFormed(md) && chain == Registries() && Resolvable(md, chain, OfClass(cls), d)
      modifies instanceCache, Root().instanceCache, alloc
      decreases d, 0, 0
      ensures var o := ResolveClassSpec(md, chain, cls, old(WorldOf(alloc)), d);
        r == o.result && WorldOf(alloc) == o.world
    {
      var meta := GetInstanceMeta(md, cls);
      var cached := RetrieveInstance(meta);
      RetrieveIsCached(meta, alloc);
      if cached.Some? {
        return Ok(cached.value);
      }
      if md.classes[cls].builtIn {
        return Err(BuiltInConstructor(cls, name));
      }
      var declared := ParamTypes(md, cls);
      if |declared| != md.classes[cls].length {
        return Err(DependencyMismatch(cls));
      }
      assert AllResolvable(md, chain, Dependencies(md, cls), d - 1);
      TokenCachesAllocated();
      ghost var caches := TokenCaches();
      var dependencies := DependencyList(md, cls);
      assert unchanged(caches);
      var injections := ResolveEach(md, dependencies, alloc, chain, d - 1);
      if injections.Err? {
        return Err(injections.error);
      }
      var instance := Build(meta, Constructed(cls), injections.value, alloc);
      r := Ok(instance);
    }

    /** The parameter types of `cls` copied into an array, with the
        `@Inject` overrides written over them. */
    static method DependencyList(md: Metadata, cls: ClassId) returns (deps: seq<Target>)
      requires WellFormed(md)
      ensures deps == Dependencies(md, cls)
    {
      var declared := ParamTypes(md, cls);
      var dependencies := new Target[|declared|](i requires 0 <= i < |declared| => declared[i]);
      assert dependencies[..] == declared;
      ApplyOverrides(dependencies, GetTokenMeta(md.tokens, cls));
      deps := dependencies[..];
    }

    /** Allocates a new instance from resolved arguments and stores it for
        `meta`, as `Construct` describes. */
    method Build(meta: Option<InstanceMeta>, origin: Origin, args: seq<Instance>, alloc: Allocator) returns (instance: Instance)
      modifies instanceCache, Root().instanceCache, alloc
      ensures var o := old(Construct(meta, origin, Resolution(Ok(args), WorldOf(alloc))));
        Ok(instance) == o.result && WorldOf(alloc) == o.world
    {
      ghost var before := WorldOf(alloc);
      var id := alloc.Allocate();
      instance := Instance(id, origin, args);
      StoreInstance(meta, instance);
      assert WorldOf(alloc) == Remember(before.(next := before.next + 1), meta, instance);
    }

    /** Resolves `targets` in order, as `Array.prototype.map` does. */
    method ResolveEach(md: Metadata, targets: seq<Target>, alloc: Allocator, ghost chain: Chain, ghost d: nat) returns (r: Result<seq<Instance>>)
      requires Valid() && WellFormed(md) && chain == Registries() && AllResolvable(md, chain, targets, d)
      modifies instanceCache, Root().instanceCache, alloc
      decreases d, 1, 0
      ensures var o := ResolveAll(md, chain, targets, old(WorldOf(alloc)), d);
        r == o.result && WorldOf(alloc) == o.world
    {
      TokenCachesAllocated();
      ghost var whole := ResolveAll(md, chain, targets, WorldOf(alloc), d);
      PrefixedNothing(whole);
      var done: seq<Instance> := [];
      var i := 0;
      assert targets[i..] == targets;
      while i < |targets|
        invariant 0 <= i <= |targets|
        invariant chain == Registries()
        invariant whole == Prefixed(done, ResolveAll(md, chain, targets[i..], WorldOf(alloc), d))
      {
        ghost var first := ResolveSpec(md, chain, targets[i], WorldOf(alloc), d);
        assert targets[i..][0] == targets[i] && targets[i..][1..] == targets[i + 1..];
        ghost var tail := ResolveAll(md, chain, targets[i + 1..], first.world, d);
        ResolveAllStep(md, chain, targets[i..], WorldOf(alloc), d);
        ghost var caches := TokenCaches();
        var v := Resolve(md, targets[i], alloc, chain, d);
        assert unchanged(caches);
        if v.Err? {
          return Err(v.error);
        }
        PrefixedTwice(done, [v.value], tail);
        done := done + [v.value];
        i := i + 1;
      }
      assert targets[i..] == [] && done + [] == done;
      r := Ok(done);
    }

    /** Registers one token in this container's token cache. */
    method RegisterToken(token: RegisterToken) returns (r: Result<()>)
      modifies tokenCache
      ensures var registration := Registration(token);
        && (registration.Ok? ==>
              r == Ok(()) && tokenCache.storage == old(tokenCache.storage)[token.identifier := registration.value.target])
        && (registration.Err? ==> r == Err(registration.error) && tokenCache.storage == old(tokenCache.storage))
    {
      match token
      case ClassToken(identifier, cls) =>
        tokenCache.Store(Token(identifier, OfClass(cls)));
        r := Ok(());
      case FactoryToken(identifier, factory, scope) =>
        if factory.arity <= 1 {
          tokenCache.Store(Token(identifier, OfFactory(FactoryTarget(identifier, scope, factory))));
          r := Ok(());
        } else {
          r := Err(InvalidFactory(identifier));
        }
    }

    /** Registers `tokens` in order; the first invalid entry stops the loop
        and the entries before it stay registered. */
    method RegisterTokens(tokens: seq<RegisterToken>) returns (r: Result<()>)
      modifies tokenCache
      ensures (tokenCache.storage, r) == RegisterAll(old(tokenCache.storage), tokens)
    {
      var i := 0;
      while i < |tokens|
        invariant 0 <= i <= |tokens|
        invariant RegisterAll(old(tokenCache.storage), tokens) == RegisterAll(tokenCache.storage, tokens[i..])
      {
        assert tokens[i..][0] == tokens[i] && tokens[i..][1..] == tokens[i + 1..];
        r := RegisterToken(tokens[i]);
        if r.Err? {
          return;
        }
        i := i + 1;
      }
      assert tokens[i..] == [];
      r := Ok(());
    }
  }
}
