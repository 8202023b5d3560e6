/** The two keyed stores a container owns (an instance cache with
    insert-if-absent writes and a token cache with overwriting writes) and
    the per-class record of `@Inject` token overrides. */
module Cache {
  import opened Types

  /** The write rule of an instance cache: the first value stored under a
      key wins, later stores under the same key change nothing. */
  function InsertIfAbsent(m: map<InstanceKey, Instance>, key: InstanceKey, instance: Instance): (r: map<InstanceKey, Instance>)
    ensures key in r
    ensures key in m ==> r == m
    ensures key !in m ==> r[key] == instance
    ensures forall k :: k != key ==> (k in r <==> k in m)
    ensures forall k :: k in m ==> k in r && r[k] == m[k]
  {
    if key in m then m else m[key := instance]
  }

  /** A store under a key that already holds a value is a no-op, so a
      second store under the same key never replaces the first value. */
  lemma StoreTwiceKeepsFirst(m: map<InstanceKey, Instance>, key: InstanceKey, first: Instance, second: Instance)
    ensures InsertIfAbsent(InsertIfAbsent(m, key, first), key, second) == InsertIfAbsent(m, key, first)
    ensures key !in m ==> InsertIfAbsent(InsertIfAbsent(m, key, first), key, second)[key] == first
  {
  }

  class InstanceCache {
    var storage: map<InstanceKey, Instance>

    constructor ()
      ensures storage == map[]
    {
      storage := map[];
    }

    /** Stores `instance` under `key` unless the key already has a value. */
    method Store(key: InstanceKey, instance: Instance)
      modifies this
      ensures storage == InsertIfAbsent(old(storage), key, instance)
    {
      if key !in storage {
        storage := storage[key := instance];
      }
    }

    /** The value stored under `key`, or None; the storage is not changed. */
    method Retrieve(key: InstanceKey) returns (r: Option<Instance>)
      ensures r.Some? <==> key in storage
      ensures r.Some? ==> r.value == storage[key]
    {
      r := if key in storage then Some(storage[key]) else None;
    }
  }

  class TokenCache {
    var storage: map<TokenIdentifier, Target>

    constructor ()
      ensures storage == map[]
    {
      storage := map[];
    }

    /** Registers `token.target` under `token.identifier`, replacing any
        earlier registration of that identifier. */
    method Store(token: Token)
      modifies this
      ensures storage == old(storage)[token.identifier := token.target]
      ensures token.identifier in storage && storage[token.identifier] == token.target
      ensures forall id :: id != token.identifier ==> (id in storage <==> id in old(storage))
      ensures forall id :: id != token.identifier && id in old(storage) ==> storage[id] == old(storage)[id]
    {
      storage := storage[token.identifier := token.target];
    }

    /** The target registered under `identifier`, or None. */
    method Retrieve(identifier: TokenIdentifier) returns (r: Option<Target>)
      ensures r.Some? <==> identifier in storage
      ensures r.Some? ==> r.value == storage[identifier]
    {
      r := if identifier in storage then Some(storage[identifier]) else None;
    }
  }

  /** The token overrides recorded for one class: constructor parameter
      index to token identifier. */
  type TokenMeta = map<nat, TokenIdentifier>

  /** The overrides recorded for `target` in the reflection store, or the
      empty record when `@Inject` was never applied to it. */
  function GetTokenMeta(store: map<ClassId, TokenMeta>, target: ClassId): (r: TokenMeta)
    ensures target !in store ==> r == map[]
    ensures target in store ==> r == store[target]
  {
    if target in store then store[target] else map[]
  }

  /** Records that parameter `index` of `target` is to be injected from the
      token `identifier`: reads the class's record (empty if absent), sets
      that one position and writes the record back. */
  function AddTokenMeta(store: map<ClassId, TokenMeta>, target: ClassId, index: nat, identifier: TokenIdentifier): (r: map<ClassId, TokenMeta>)
    ensures target in r
    ensures index in GetTokenMeta(r, target) && GetTokenMeta(r, target)[index] == identifier
    ensures forall i :: i != index ==> (i in GetTokenMeta(r, target) <==> i in GetTokenMeta(store, target))
    ensures forall i :: i != index && i in GetTokenMeta(store, target) ==> GetTokenMeta(r, target)[i] == GetTokenMeta(store, target)[i]
    ensures forall c :: c != target ==> GetTokenMeta(r, c) == GetTokenMeta(store, c)
  {
    var tokens := GetTokenMeta(store, target);
    store[target := tokens[index := identifier]]
  }
}
