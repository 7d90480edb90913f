/** The Redis cache of `cache.py`: a map from key to a stored value and the moment it
    expires. `set_in_cache` stores with a fixed time to live; `get_from_cache` answers
    nothing for a key never stored or whose time has run out. Time is a parameter `now`
    in whole seconds. */
module Cache {
  import opened Wrappers

  /** CACHE_TTL: fifteen minutes. */
  const CacheTtl: int := 900

  datatype Entry<V> = Entry(value: V, expiresAt: int)

  /** An entry answers while `now` is before its expiry. */
  function Lookup<V>(entries: map<string, Entry<V>>, key: string, now: int): (r: Option<V>)
    ensures r.Some? <==> key in entries && now < entries[key].expiresAt
    ensures r.Some? ==> r.value == entries[key].value
  {
    if key in entries && now < entries[key].expiresAt then Some(entries[key].value) else None
  }

  /** SETEX: the entry for `key` is replaced, whatever it held, and lives `CacheTtl` seconds. */
  function Store<V>(entries: map<string, Entry<V>>, key: string, value: V, now: int): (r: map<string, Entry<V>>)
    ensures key in r && r[key] == Entry(value, now + CacheTtl)
    ensures forall k :: k != key ==> (k in r <==> k in entries)
    ensures forall k :: k != key && k in entries ==> r[k] == entries[k]
  {
    entries[key := Entry(value, now + CacheTtl)]
  }

  /** A value stored is read back until its time to live has passed. */
  lemma StoreThenLookup<V>(entries: map<string, Entry<V>>, key: string, value: V, now: int, later: int)
    requires now <= later < now + CacheTtl
    ensures Lookup(Store(entries, key, value, now), key, later) == Some(value)
  {
  }

  /** Nine hundred seconds after it was stored, the entry is gone. */
  lemma StoreExpires<V>(entries: map<string, Entry<V>>, key: string, value: V, now: int, later: int)
    requires later >= now + CacheTtl
    ensures Lookup(Store(entries, key, value, now), key, later) == None
  {
  }

  /** Storing under one key changes no answer for another key. */
  lemma StoreLeavesOthers<V>(entries: map<string, Entry<V>>, key: string, value: V, now: int, other: string, later: int)
    requires other != key
    ensures Lookup(Store(entries, key, value, now), other, later) == Lookup(entries, other, later)
  {
  }

  /** A key never stored is a miss. */
  lemma NeverStoredMisses<V>(entries: map<string, Entry<V>>, key: string, now: int)
    requires key !in entries
    ensures Lookup(entries, key, now) == None
  {
  }

  /** The shared Redis instance. */
  class TtlCache<V> {
    var entries: map<string, Entry<V>>

    constructor()
      ensures entries == map[]
    {
      entries := map[];
    }

    /** `get_from_cache`. */
    method Get(key: string, now: int) returns (r: Option<V>)
      ensures r == Lookup(entries, key, now)
    {
      if key in entries && now < entries[key].expiresAt {
        r := Some(entries[key].value);
      } else {
        r := None;
      }
    }

    /** `set_in_cache`. */
    method Set(key: string, value: V, now: int)
      modifies this
      ensures entries == Store(old(entries), key, value, now)
    {
      entries := entries[key := Entry(value, now + CacheTtl)];
    }
  }
}
