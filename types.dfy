/** Shapes shared by the container, its caches and the metadata reader:
    the scope enumeration, instance metadata, targets, tokens, instances
    and the errors that resolution and registration can raise. */
module Types {

  /** A JavaScript `symbol`: instance keys and token identifiers are both
      symbols, so a factory registered under a token can use the token's
      identifier as its instance key. */
  type Sym = nat
  type InstanceKey = Sym
  type TokenIdentifier = Sym

  /** A class (constructor function) is named by an index into the class table. */
  type ClassId = nat

  datatype Scope = Singleton | LocalSingleton | Transient

  datatype InstanceMeta = InstanceMeta(key: InstanceKey, scope: Scope)

  /** A factory function, kept opaque: `arity` is its declared parameter
      count (`Function.length`) and `resolves` lists, in call order, the
      targets it asks its resolver callback for before it builds its value. */
  datatype Builder = Builder(arity: nat, resolves: seq<Target>)

  datatype FactoryTarget = FactoryTarget(key: InstanceKey, scope: Scope, factory: Builder)

  /** What `resolve` accepts: a class, a factory target or a token identifier. */
  datatype Target =
    | OfClass(cls: ClassId)
    | OfFactory(target: FactoryTarget)
    | OfToken(id: TokenIdentifier)

  /** A registry entry of a token cache. */
  datatype Token = Token(identifier: TokenIdentifier, target: Target)

  /** The argument of `registerToken`: either a class or a factory with a scope. */
  datatype RegisterToken =
    | ClassToken(identifier: TokenIdentifier, cls: ClassId)
    | FactoryToken(identifier: TokenIdentifier, factory: Builder, scope: Scope)

  /** Where a constructed value came from. */
  datatype Origin = Constructed(cls: ClassId) | Built(key: InstanceKey)

  /** A constructed object: a unique allocation id, its origin and the
      arguments it was given, in positional order. */
  datatype Instance = Instance(id: nat, origin: Origin, args: seq<Instance>)

  datatype DIError =
    | InvalidFactory(token: TokenIdentifier)
    | UnresolvedToken(token: TokenIdentifier, trace: seq<string>)
    | BuiltInConstructor(cls: ClassId, container: string)
    | DependencyMismatch(cls: ClassId)

  datatype Option<T> = None | Some(value: T)

  datatype Result<T> = Ok(value: T) | Err(error: DIError)
}
