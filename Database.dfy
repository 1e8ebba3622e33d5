/**
 * The in-memory key/value store that backs a channel's activity state
 * (DictDatabase in contextualizethat/database.py).
 */
module Database {

  /** A dictionary updated in place; `store` is its content. */
  class DictDatabase<K(==), V> {
    var store: map<K, V>

    /** A new store is empty. */
    constructor ()
      ensures store == map[]
    {
      store := map[];
    }

    /** `db[key] = value`: binds `key` to `value`, every other key keeps its value. */
    method Set(key: K, value: V)
      modifies this
      ensures store == old(store)[key := value]
      ensures key in store && store[key] == value
      ensures forall k :: k != key ==> (k in store <==> k in old(store))
      ensures forall k :: k != key && k in old(store) ==> store[k] == old(store)[k]
    {
      store := store[key := value];
    }

    /** `db[key]`: the value bound to `key`; reading an absent key raises in the source. */
    method Get(key: K) returns (value: V)
      requires key in store
      ensures value == store[key]
    {
      value := store[key];
    }

    /** `initialize(key, default)`: binds `key` to `default` only when `key` is absent. */
    method Initialize(key: K, default: V)
      modifies this
      ensures key in store
      ensures key in old(store) ==> store == old(store)
      ensures key !in old(store) ==> store == old(store)[key := default]
    {
      if key !in store {
        store := store[key := default];
      }
    }
  }
}
