/** `CacheService<K, V>`: a key/value cache, here backed by a map that its operations
    update in place. A value is never `null` in this model, so `get` returning `null`
    means only that the key is absent. */
module CacheService {
  import opened Wrappers

  class MapCache<K(==), V> {
    /** The cached entries. */
    var table: map<K, V>

    constructor ()
      ensures table == map[]
    {
      table := map[];
    }

    /** `save(key, value)`: caches `value` under `key`, replacing any earlier value, and
        returns the saved value. Other keys keep their values. */
    method Save(key: K, value: V) returns (saved: V)
      modifies this
      ensures saved == value
      ensures key in table && table[key] == value
      ensures table == old(table)[key := value]
    {
      table := table[key := value];
      saved := value;
    }

    /** `get(key)`: the cached value, or `None` (Java `null`) when the key is absent. */
    method Get(key: K) returns (r: Option<V>)
      ensures r.Some? <==> key in table
      ensures r.Some? ==> r.value == table[key]
    {
      r := if key in table then Some(table[key]) else None;
    }

    /** `remove(key)`: afterwards the key has no value; other keys keep theirs. */
    method Remove(key: K)
      modifies this
      ensures key !in table
      ensures table == old(table) - {key}
    {
      table := table - {key};
    }

    /** `clear()`: afterwards no key has a value. */
    method Clear()
      modifies this
      ensures forall k :: k !in table
      ensures table == map[]
    {
      table := map[];
    }

    /** `contains(key)`: whether the cache holds a value for the key. */
    method Contains(key: K) returns (b: bool)
      ensures b <==> key in table
    {
      b := key in table;
    }
  }
}
