/** The process-level key/value cache (packages/cli/utils/processCache.ts).
    Entries live as long as the process. */
module ProcessCache {
  import opened Wrappers

  class ProcessCache<V> {
    /** The entries, by key. */
    var cache: map<string, V>

    /** A new cache is empty. */
    constructor ()
      ensures cache == map[]
    {
      cache := map[];
    }

    /** `get(key)`: the entry's value, or `undefined` (`None`) when there is none. */
    function Get(key: string): (r: Option<V>)
      reads this
      ensures r.Some? <==> key in cache
      ensures r.Some? ==> r.value == cache[key]
    {
      if key in cache then Some(cache[key]) else None
    }

    /** `has(key)`: whether the cache holds an entry for the key. */
    function Has(key: string): (r: bool)
      reads this
      ensures r <==> Get(key).Some?
    {
      key in cache
    }

    /** `set(key, value)`: afterwards `get(key)` is the value and `has(key)`
        holds; every other entry is as it was. */
    method Set(key: string, value: V)
      modifies this
      ensures cache == old(cache)[key := value]
      ensures Get(key) == Some(value) && Has(key)
      ensures forall k :: k != key ==> Get(k) == old(Get(k))
    {
      cache := cache[key := value];
    }

    /** `delete(key)`: afterwards `has(key)` is false; every other entry is
        as it was, so deleting an absent key changes nothing. */
    method Delete(key: string)
      modifies this
      ensures cache == old(cache) - {key}
      ensures !Has(key) && Get(key) == None
      ensures forall k :: k != key ==> Get(k) == old(Get(k))
      ensures !old(Has(key)) ==> cache == old(cache)
    {
      cache := cache - {key};
    }

    /** `clear()`: no key has an entry afterwards. */
    method Clear()
      modifies this
      ensures cache == map[]
      ensures forall k :: !Has(k)
    {
      cache := map[];
    }
  }
}
