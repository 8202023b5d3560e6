# A verified model of the `di` dependency-injection container

This project models, in Dafny, the resolution engine of the TypeScript
library `di`: the `DIContainer` class of `src/index.ts` and the two keyed
stores of `src/cache.ts` it is built on. It proves properties of that model.

A container owns an instance cache and a token cache. It knows its parent
and the root of its tree. `resolve` turns one of three things into an instance:
- a class, through its constructor parameter types and `@Inject` overrides;
- a factory target, through its factory and the targets the factory asks for;
- a token, through the nearest container that registered it.

Instances are cached by scope:
- a `LocalSingleton` goes in the resolving container's own cache;
- a `Singleton` goes in the root's cache;
- a `Transient` goes in no cache.

The files:

- `types.dfy` (`Types`) holds the shapes of `src/types.ts` and `src/constants.ts`: scopes, instance metadata, targets, tokens and instances. It also holds the errors that resolution and registration raise.
- `cache.dfy` (`Cache`) holds the two store classes:
  - `InstanceCache`, an insert-if-absent map;
  - `TokenCache`, an overwriting map;
  - and the per-class `@Inject` record `AddTokenMeta`/`GetTokenMeta`.
- `metadata.dfy` (`Metadata`) holds the class metadata the runtime reads through reflection, as a value. It also holds the in-place loop that writes token overrides into the dependency array.
- `container.dfy` (`Container`) holds the `DIContainer` class, on heap objects with the source's fields:
  - `parent`, `root` and the two caches;
  - scope dispatch;
  - token registration and lookup;
  - the resolution methods.

  The methods are proved equal to specification functions (`ResolveSpec`, `ResolveFactorySpec`, `ResolveClassSpec`, `ResolveAll`). These functions map the state before resolution to the result and the state after it. That state (`World`) is the contents of the caches a resolution can reach, plus the next free object identity.
- `properties.dfy` (`Properties`) holds what resolution guarantees, proved on the specification functions:
  - what it may write;
  - that a miss builds a new object;
  - that a cache hit comes first;
  - that a resolved instance is cached and returned again;
  - that arguments are resolved in order, by position.
- `tree.dfy` (`Tree`) holds the container tree:
  - the shared root and per-container caches;
  - token lookup: the nearest registration wins, a descendant is never searched, and the trace runs from the requester to the root;
  - batch registration.
- `scopes.dfy` (`Scopes`) holds how scopes share instances across a tree.

Termination of resolution rests on a ghost depth bound, `Resolvable`. It says the dependency graph below a target is acyclic with height below `d`. The source has no such guard (see Left out).

## Model

| member | source | states |
|---|---|---|
| Cache.InsertIfAbsent | src/cache.ts:19-23 | after a store the key is present; if it was already present nothing changes; otherwise it maps to the new instance; every other key keeps its presence and value |
| Cache.StoreTwiceKeepsFirst | src/cache.ts:19-23 | a second store under the same key is a no-op, so the first instance stored stays |
| Cache.InstanceCache.Store | src/cache.ts:19-23 | the new storage is the old storage with the insert-if-absent rule applied |
| Cache.InstanceCache.Retrieve | src/cache.ts:26-28 | returns a value exactly when the key is stored, and then the stored value; storage is not changed |
| Cache.TokenCache.Store | src/cache.ts:50-52 | overwrites the identifier's target, so a later lookup returns it whatever was registered before; other identifiers are unchanged |
| Cache.TokenCache.Retrieve | src/cache.ts:55-57 | returns a target exactly when the identifier is registered, and then its target; storage is not changed |
| Cache.GetTokenMeta | src/cache.ts:45-47 | the override record of a class, or the empty record when none was made |
| Cache.AddTokenMeta | src/cache.ts:36-42 | sets position `index` of the class's record to the identifier; keeps the other positions and the other classes' records |
| Metadata.GetInstanceMeta | src/cache.ts:14-16 | instance metadata is present exactly when the class was decorated, and is the recorded metadata |
| Metadata.ParamTypes | src/index.ts:148 | the declared parameter types, or the empty list when none were emitted |
| Metadata.Dependencies | src/index.ts:147-165 | defines a class's dependency list: the declared parameter types with every `@Inject` override at its index; its properties are Overlay's and DependencyList's |
| Metadata.Overlay | src/index.ts:157-165 | same length as the declared list; each overridden index holds its token; every other index keeps its declared type |
| Metadata.ApplyOverrides | src/index.ts:157-165 | the in-place loop over the recorded indexes leaves the array equal to the overlay of its old contents |
| Container.Allocator.Allocate | src/index.ts:173 | issues the next object identity and advances the counter, so identities are never reused |
| Container.Registration | src/index.ts:53-74 | succeeds exactly for a class token or a factory of at most one parameter; stores a class as given and a factory as a target keyed by the token's identifier; otherwise raises an invalid-factory error for that identifier |
| Container.DIContainer.RegisterToken | src/index.ts:53-74 | on success the registry maps the identifier to that registration, overwriting; on an invalid factory the registry is unchanged and the error is returned |
| Container.DIContainer.RegisterTokens | src/index.ts:80-84 | the registry and outcome are those of applying the entries in order and stopping at the first error |
| Container.RegisterAll | src/index.ts:80-84 | defines a batch registration: entries applied in order, stopping at the first invalid one with its error; its properties are RegisterAllOk, RegisterAllStops and RegisterAllLastWins |
| Tree.RegisterAllOk | src/index.ts:80-84 | a batch succeeds exactly when every entry is valid |
| Tree.RegisterAllStops | src/index.ts:80-84 | the first invalid entry ends the batch with its error; the entries before it stay registered; the later ones are not applied |
| Tree.RegisterAllLastWins | src/index.ts:80-84 | after a successful batch, an identifier holds the target of the last entry that registers it, or its old target when no entry does |
| Container.DIContainer.constructor | src/index.ts:10-19 | a container with the given name, parent and root, and fresh empty caches of its own |
| Container.DIContainer.CreateChildContainer | src/index.ts:190-192 | the child's parent is this container; its root is this one's root, or this container itself when it has no parent; it shares this container's root |
| Tree.RootIsTop | src/index.ts:190-192 | a container's root is the last container of its lineage and has no parent; every ancestor has the same root |
| Tree.CachesOfChild | src/index.ts:12-13 | a child's instance cache is neither its parent's nor the root's; the child and the parent share a root |
| Tree.DescendantUnseen | src/index.ts:86-104 | a lookup from any ancestor never reads a container's token cache, so a token registered only in a descendant, at any depth, is not found from above it |
| Container.DIContainer.Names | src/index.ts:92-100 | the names a failed lookup collects: this container's name first, then its parent's names, up to the root |
| Container.Nearest | src/index.ts:86-104 | defines the lookup of a token along the registries, nearest first; its property is NearestFirst |
| Container.DIContainer.TraceChild | src/index.ts:181-183 | the trace grows by exactly this container's name, at its end |
| Container.DIContainer.ResolveToken | src/index.ts:86-104 | finds a target exactly when some registry on the way to the root has the token; it is the nearest one; otherwise the error's trace is the given trace followed by the names of the containers up to the root |
| Tree.NearestFirst | src/index.ts:86-104 | the nearest-registration search fails exactly when no registry has the token; otherwise it returns the entry of the first registry that has it |
| Tree.LookupNearest | src/index.ts:86-104 | the registration of the first container on the way to the root that has the token wins, shadowing those of its ancestors |
| Tree.LookupTrace | src/index.ts:86-104 | when no container on the way has the token, the lookup fails with a trace naming the containers from the requester up to the root, in order |
| Container.DIContainer.Slot | src/index.ts:21-47 | a local singleton uses this container's cache; a singleton uses the root's; a transient or undecorated target uses none |
| Container.DIContainer.Cached | src/index.ts:35-47 | defines the instance a scope's cache holds for a key in a world: none for a transient or undecorated target |
| Container.DIContainer.Remember | src/index.ts:21-33 | defines a store into the cache the scope selects, with the insert-if-absent rule; a transient or undecorated target changes nothing |
| Container.DIContainer.RetrieveInstance | src/index.ts:35-47 | returns an instance only for a cached scope, and exactly when the selected cache holds the key; it is the stored instance |
| Container.DIContainer.StoreInstance | src/index.ts:21-33 | applies the insert-if-absent rule to the cache the scope selects and leaves the other cache unchanged; a transient or undecorated target changes neither |
| Container.DIContainer.WorldOf | src/index.ts:21-47 | the observable state holds this container's cache and the root's, with their contents and the next identity |
| Container.DIContainer.Construct | src/index.ts:173-176 | the new instance has the next identity, its origin and the resolved arguments; no cached instance is lost or replaced; the counter advances by one; every identity stays below the counter |
| Container.DIContainer.ResolveSpec | src/index.ts:111-121 | defines resolution as a function of the state before it: a token's nearest registration is resolved in its place, or the unresolved-token error with the trace is raised; other targets are dispatched by kind; its properties are ResolveGrows, CacheHitFirst, FreshOnMiss, ResolvedIsCached and ResolveAgainIsCached |
| Container.DIContainer.ResolveFactorySpec | src/index.ts:121-132 | defines a factory target's resolution: cache hit first; otherwise the factory's targets in order, stopping at the first error, then construction and store by scope; its properties are FactoryGrows and FreshOnMiss |
| Container.DIContainer.ResolveClassSpec | src/index.ts:134-179 | defines a class's resolution: cache hit, built-in rejection, arity check, dependencies with overrides in order, construction and store by scope; its properties are ClassGrows, ClassCheckOrder and ClassArguments |
| Container.DIContainer.ResolveAll | src/index.ts:167-170 | defines the resolution of a dependency list left to right, each in the state the earlier ones left, stopping at the first error; its properties are AllGrows and ResolveAllPointwise |
| Container.DIContainer.Resolve | src/index.ts:111-121 | the result and final state are exactly those of the specification: a token is looked up from this container and its target resolved in its place; other targets are dispatched by kind |
| Container.DIContainer.ResolveFactory | src/index.ts:121-132 | matches the specification: a cache hit is returned; otherwise the factory's targets are resolved, a new instance is built and stored by scope |
| Container.DIContainer.ResolveClass | src/index.ts:134-179 | matches the specification: cache lookup, built-in rejection, arity check, overrides, dependencies in order, construction and store |
| Container.DIContainer.DependencyList | src/index.ts:147-165 | the dependency list is the declared types with every override written at its index |
| Container.DIContainer.ResolveEach | src/index.ts:167-170 | the loop's results and final state are those of resolving the targets left to right, stopping at the first error |
| Container.DIContainer.Build | src/index.ts:173-176 | allocating and storing the new instance has exactly the effect the specification gives construction |
| Properties.ConstructGrows | src/index.ts:21-33 | storing a new instance loses or replaces nothing; every cache other than the one its scope selects is unchanged; the only new entry is its own key, in that cache; every identity stays below the counter |
| Properties.ResolveGrows | src/index.ts:111-179 | resolution never removes or replaces a cached instance; it changes only this container's cache and the root's; it adds keys only of targets it may construct; a result's identity is below the counter |
| Properties.FactoryGrows | src/index.ts:121-132 | the same for a factory target |
| Properties.ClassGrows | src/index.ts:134-179 | the same for a class |
| Properties.AllGrows | src/index.ts:167-170 | the same for a dependency list; a success has one instance per dependency |
| Properties.CacheHitFirst | src/index.ts:121-139 | a cache hit returns the stored instance before any check, factory call or construction, and changes no store |
| Properties.ClassCheckOrder | src/index.ts:135-154 | after a miss, the built-in error comes before the arity error; both come before any dependency is resolved and leave the state unchanged; success implies both checks passed |
| Properties.FreshOnMiss | src/index.ts:168-176 | a miss yields an object with a never-issued identity, distinct from every instance cached before |
| Properties.ResolvedIsCached | src/index.ts:173-178 | after a successful resolution with a caching scope, the selected cache holds the returned instance |
| Properties.ResolveAgainIsCached | src/index.ts:124-139 | resolving a caching-scope target again returns the same instance and changes nothing |
| Properties.ResolveAllPointwise | src/index.ts:167-170 | a dependency list is resolved left to right; each result is what its target resolves to after the earlier ones |
| Properties.ClassArguments | src/index.ts:157-173 | a class built on a miss is constructed from one argument per dependency, in order; argument i is the resolution of the override at i, or else of the declared type |
| Scopes.SingletonShared | src/index.ts:21-47 | two containers under the same root see one singleton: the second resolution returns the first one's instance and changes nothing |
| Scopes.SingletonParentChild | src/index.ts:190-192 | a singleton resolved by a parent is the instance its child resolves |
| Scopes.LocalSingletonPerContainer | src/index.ts:21-47 | a local singleton resolved by a parent is not the child's; the child builds a newer instance |
| Scopes.TransientSiblingsDistinct | src/index.ts:168-176 | two uncached targets resolved side by side, as two constructor parameters are, give two different instances |

## Left out

- Reflection and decorators are not modelled. Their effect is kept as a `Metadata` input value: instance metadata, parameter types, overrides, and the constructor's length and built-in flag. `@Injectable()` defaults to `Singleton` and mints one `Symbol` key per class (src/decorators.ts:9-16). The model does not assume keys are distinct; the lemmas that need it say so.
- `AddTokenMeta` and `GetTokenMeta` work on the process-wide reflection store. They are modelled as functions on that store taken as a value, so the read-modify-write returns the new store.
- `arrayIncludes` and the list of built-in constructors are not part of this model; `ClassDef.builtIn` stands for the membership test.
- Factory bodies are opaque. A `Builder` records the declared parameter count and the targets the factory asks its resolver for, in order. Its result is a new instance. A factory that returns an existing or falsy value, asks for targets depending on data, or throws is not modelled.
- Constructor bodies and their side effects are not modelled. An instance is an identity, its origin and its arguments.
- Exceptions become `Result` values. Error messages become `DIError` kinds that carry the token, the class or the trace of container names; the message text is not modelled.
- The truthiness tests `if (cached)` and `if (!cachedTarget)` are treated as presence tests. This is exact because the model has no falsy instances or targets.
- Circular dependencies are not modelled. The source has no guard and recurses until the stack overflows. The model requires a depth bound, `Resolvable`, on every resolution.
- The override loop writes into the array read from the reflection store, so the source persistently overwrites the class's parameter types. The model writes into a fresh copy. Each later resolution applies the same overrides again, so the results are the same.
- An `@Inject` index beyond the parameter list is not modelled; JavaScript would grow the array with holes. `WellFormed` requires every override index to lie inside the list, as a parameter decorator guarantees.
- The public constructor accepts any `parent` and `root`. The model requires the root that `createChildContainer` passes, which is the parent's root, or the parent itself when it has no parent.
- The process-wide `container` instance (src/index.ts:198) and the default container name are not modelled.
- The resolver handed to a factory accepts classes and tokens only. The model lets a factory ask for any target, a superset.
- Properties.ResolvedIsCached: it needs the target's own key to be absent from the keys its dependencies may store. The source gets this from distinct per-class symbols and the absence of cycles.
- Properties.ResolveAgainIsCached: it carries the same hypothesis as ResolvedIsCached.
- Scopes.SingletonShared: it carries the same hypothesis as ResolvedIsCached.
- Scopes.SingletonParentChild: it carries the same hypothesis as ResolvedIsCached.
- Scopes.LocalSingletonPerContainer: it covers a parent resolving before its child. The child's own cache must not hold the key yet.
- Scopes.TransientSiblingsDistinct: it is stated for two sibling targets, not for every pair in a longer list.
