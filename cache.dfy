/** The shared in-memory cache of server.go (`inmem_cache`), as the handlers use it: a store of
    string values under string keys where the last `Set` of a key wins. Expiry and the eviction
    callback are not part of this model. */
module ResponseCache {

  class Cache {
    var items: map<string, string>

    /** `cache.New(...)`: an empty cache. */
    constructor ()
      ensures items == map[]
    {
      items := map[];
    }

    /** `Get(key)`: the stored value and true on a hit; "" and false on a miss. Nothing changes. */
    method Get(key: string) returns (value: string, found: bool)
      ensures found <==> key in items
      ensures found ==> value == items[key]
      ensures !found ==> value == ""
    {
      found := key in items;
      value := if found then items[key] else "";
    }

    /** `Set(key, value, DefaultExpiration)`: inserts or overwrites `key`; other keys keep their values. */
    method Set(key: string, value: string)
      modifies this
      ensures items == old(items)[key := value]
    {
      items := items[key := value];
    }
  }

  /** A `Get` right after a `Set` of the same key returns the value just set; a `Set` of one key
      leaves every other key's value as it was. */
  method SetThenGet(cache: Cache, key: string, value: string, other: string)
    returns (got: string, found: bool, otherBefore: string, otherAfter: string)
    modifies cache
    ensures found && got == value
    ensures other != key ==> otherAfter == otherBefore
  {
    var hit: bool;
    otherBefore, hit := cache.Get(other);
    cache.Set(key, value);
    got, found := cache.Get(key);
    otherAfter, hit := cache.Get(other);
  }
}
