/**
 * The process-wide TTL cache the session stores, the brute-force guard and
 * the token-freshness stamps share (`set(key, value, ttl)`, `get`, `has`,
 * `del`). An entry set with ttl `t` at time `now` is alive while the clock
 * reads less than `now + t`; an expired entry reads as absent.
 */
module Cache {
  import opened Js

  datatype Entry = Entry(value: Value, expiresAt: int)

  class TtlCache {
    /** Every entry ever set and not deleted, expired or not. */
    var entries: map<string, Entry>
    /** The clock, in seconds. */
    var now: int

    constructor (start: int)
      ensures entries == map[] && now == start
    {
      entries := map[];
      now := start;
    }

    /** `cache.has(key)`: present and not yet expired. */
    predicate Has(key: string)
      reads this
    {
      key in entries && now < entries[key].expiresAt
    }

    /** `cache.get(key)`: the live value, or `undefined`. */
    function Get(key: string): (v: Value)
      reads this
      ensures Has(key) ==> v == entries[key].value
      ensures !Has(key) ==> v == Undefined
    {
      if Has(key) then entries[key].value else Undefined
    }

    /** `cache.set(key, value, ttl)`: replaces the entry and restarts its lifetime. */
    method Set(key: string, value: Value, ttl: nat)
      modifies this
      ensures entries == old(entries)[key := Entry(value, old(now) + ttl)]
      ensures now == old(now)
      ensures ttl > 0 ==> Has(key) && Get(key) == value
    {
      entries := entries[key := Entry(value, now + ttl)];
    }

    /** `cache.del(key)`: removes that one key. */
    method Del(key: string)
      modifies this
      ensures entries == old(entries) - {key}
      ensures now == old(now)
      ensures !Has(key)
    {
      entries := entries - {key};
    }

    /** The passage of time; entries are left in place and expire by the clock alone. */
    method Tick(seconds: nat)
      modifies this
      ensures now == old(now) + seconds
      ensures entries == old(entries)
    {
      now := now + seconds;
    }
  }
}
