/**
 * The plugin's key-value cache (`kozmozio.llms`), as an abstract map from
 * keys to the stored value and the expiry argument it was stored with.
 * Expiry itself is not modelled: an entry stays until the next flush.
 */
module Cache {
  import opened Records

  datatype CacheEntry = CacheEntry(value: string, expiry: int)

  class CacheStore {
    var entries: map<string, CacheEntry>

    constructor ()
      ensures entries == map[]
    {
      entries := map[];
    }

    /** `get($key)`: the stored value, or nothing. */
    method Get(key: string) returns (v: Option<string>)
      ensures key in entries ==> v == Some(entries[key].value)
      ensures key !in entries ==> v == None
    {
      if key in entries {
        v := Some(entries[key].value);
      } else {
        v := None;
      }
    }

    /** `set($key, $value, $expiry)`: stores or replaces one entry. */
    method Set(key: string, value: string, expiry: int)
      modifies this
      ensures entries == old(entries)[key := CacheEntry(value, expiry)]
    {
      entries := entries[key := CacheEntry(value, expiry)];
    }

    /** `flush()`: drops every entry. */
    method Flush()
      modifies this
      ensures entries == map[]
    {
      entries := map[];
    }
  }
}
