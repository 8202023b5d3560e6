/** The class metadata the container reads through reflection: per class
    its instance metadata (set by `@Injectable`), its declared parameter
    types (`design:paramtypes`), its `@Inject` overrides, its constructor
    length and whether it is one of the built-in constructors. */
module Metadata {
  import opened Types
  import opened Cache

  /** What the runtime knows of a constructor: `length` (its declared
      parameter count) and whether it is a built-in such as String or Map. */
  datatype ClassDef = ClassDef(length: nat, builtIn: bool)

  datatype Metadata = Metadata(
    classes: map<ClassId, ClassDef>,
    instance: map<ClassId, InstanceMeta>,
    paramTypes: map<ClassId, seq<Target>>,
    tokens: map<ClassId, TokenMeta>)

  /** The instance metadata of a class, absent when it was never decorated. */
  function GetInstanceMeta(md: Metadata, cls: ClassId): (r: Option<InstanceMeta>)
    ensures r.Some? <==> cls in md.instance
    ensures r.Some? ==> r.value == md.instance[cls]
  {
    if cls in md.instance then Some(md.instance[cls]) else None
  }

  /** The declared parameter types, or the empty list when none were emitted. */
  function ParamTypes(md: Metadata, cls: ClassId): (r: seq<Target>)
    ensures cls !in md.paramTypes ==> r == []
    ensures cls in md.paramTypes ==> r == md.paramTypes[cls]
  {
    if cls in md.paramTypes then md.paramTypes[cls] else []
  }

  /** `@Inject` records a constructor parameter index, and the parameter
      types list one entry per constructor parameter, so every override
      index lies inside the parameter list. */
  ghost predicate WellFormed(md: Metadata) {
    forall cls, i :: cls in md.tokens && i in md.tokens[cls] ==> i < |ParamTypes(md, cls)|
  }

  /** The dependency list with each override written over the parameter
      type at its index. */
  function Overlay(deps: seq<Target>, tokens: TokenMeta): (r: seq<Target>)
    ensures |r| == |deps|
    ensures forall i :: 0 <= i < |deps| && i in tokens ==> r[i] == OfToken(tokens[i])
    ensures forall i :: 0 <= i < |deps| && i !in tokens ==> r[i] == deps[i]
  {
    seq(|deps|, i requires 0 <= i < |deps| => if i in tokens then OfToken(tokens[i]) else deps[i])
  }

  /** The targets a class's constructor arguments are resolved from, in order. */
  function Dependencies(md: Metadata, cls: ClassId): seq<Target> {
    Overlay(ParamTypes(md, cls), GetTokenMeta(md.tokens, cls))
  }

  /** Writes every override into the dependency array at its index, one
      recorded index at a time. */
  method ApplyOverrides(deps: array<Target>, tokens: TokenMeta)
    requires forall i :: i in tokens ==> i < deps.Length
    modifies deps
    ensures deps[..] == Overlay(old(deps[..]), tokens)
  {
    var pending := tokens.Keys;
    while pending != {}
      invariant pending <= tokens.Keys
      invariant forall i :: 0 <= i < deps.Length ==>
        deps[i] == if i in tokens && i !in pending then OfToken(tokens[i]) else old(deps[i])
      decreases pending
    {
      var index :| index in pending;
      deps[index] := OfToken(tokens[index]);
      pending := pending - {index};
    }
  }
}
