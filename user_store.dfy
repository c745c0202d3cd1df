/**
 * Saving a user document (src/utils/user.js): stamp `updated_at` with the
 * current time, save, then record the stamp in the cache under
 * `TokenU:<id>` for an hour so that token holders can tell whether their
 * copy of the profile is current.
 */
module UserStore {
  import opened Js
  import opened Cache

  /** The part of a user document the model follows, as the database holds it. */
  datatype Snapshot = Snapshot(roles: Value, updatedAt: Value)

  /** A loaded user document: its in-memory fields and what the database holds. */
  class UserDoc {
    const id: string
    var roles: Value
    var updatedAt: Value
    var persisted: Snapshot

    /** The document `findById` returns for a stored user. */
    constructor (id: string, stored: Snapshot)
      ensures this.id == id && Current() == stored && persisted == stored
    {
      this.id := id;
      roles := stored.roles;
      updatedAt := stored.updatedAt;
      persisted := stored;
    }

    function Current(): Snapshot
      reads this
    {
      Snapshot(roles, updatedAt)
    }

    /** `user.save()`: writes the in-memory fields; `succeeds` is whether the database accepted them. */
    method Save(succeeds: bool) returns (r: Option<Snapshot>)
      modifies this
      ensures roles == old(roles) && updatedAt == old(updatedAt)
      ensures succeeds ==> persisted == Current() && r == Some(Current())
      ensures !succeeds ==> persisted == old(persisted) && r == None
    {
      if succeeds {
        persisted := Current();
        r := Some(persisted);
      } else {
        r := None;
      }
    }
  }

  /** The freshness stamp lives for an hour. */
  const StampTtl: nat := 3600

  /** The cache key of a user's freshness stamp. */
  function TokenKey(id: string): (r: string)
    ensures |r| == |id| + 7 && r[..7] == "TokenU:"
    ensures r[7..] == id
  {
    "TokenU:" + id
  }

  /**
   * `saveData(ctx, user)` at time `now` (seconds). The stamp is written
   * only once the save has gone through; `None` is the rejected save.
   */
  method SaveData(cache: TtlCache, user: UserDoc, now: int, saveSucceeds: bool) returns (r: Option<Snapshot>)
    modifies cache, user
    ensures user.roles == old(user.roles) && user.updatedAt == Num(now)
    ensures saveSucceeds ==>
      && user.persisted == Snapshot(old(user.roles), Num(now)) && r == Some(user.persisted)
      && cache.entries == old(cache.entries)[TokenKey(user.id) := Entry(Num(now), old(cache.now) + StampTtl)]
    ensures !saveSucceeds ==>
      && user.persisted == old(user.persisted) && r == None
      && cache.entries == old(cache.entries)
    ensures cache.now == old(cache.now)
  {
    user.updatedAt := Num(now);
    r := user.Save(saveSucceeds);
    if r.Some? {
      cache.Set(TokenKey(user.id), user.updatedAt, StampTtl);
    }
  }

  /** Stamps of different users never share a key. */
  lemma TokenKeyInjective(id: string, id': string)
    requires TokenKey(id) == TokenKey(id')
    ensures id == id'
  {
    assert id == TokenKey(id)[7..] && id' == TokenKey(id')[7..];
  }
}
