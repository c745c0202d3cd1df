/**
 * The WebAuthn challenge session store (src/utils/passkey_session.js): the
 * same pattern as the code store without a code, under the cache key
 * `passkey:<type>:<sessionId>`.
 */
module PasskeySession {
  import opened Js
  import opened Text
  import opened Cache
  import CodeSession

  /** The cache key of a passkey session. */
  function SessionCodeName(kind: string, sessionId: string): (r: string)
    ensures |r| == |kind| + |sessionId| + 9
    ensures r[..8] == "passkey:" && r[|r| - |sessionId|..] == sessionId
  {
    "passkey:" + kind + ":" + sessionId
  }

  datatype Found = Found(metadata: Value, handle: string)

  /** `getOne` on a cache state given as its entries and its clock. */
  function Lookup(entries: map<string, Entry>, now: int, kind: string, sessionId: string): (r: Option<Found>)
    ensures r.Some? <==> (var k := SessionCodeName(kind, sessionId); k in entries && now < entries[k].expiresAt)
    ensures r.Some? ==>
      && r.value.handle == SessionCodeName(kind, sessionId)
      && r.value.metadata == entries[r.value.handle].value
  {
    var key := SessionCodeName(kind, sessionId);
    if key in entries && now < entries[key].expiresAt then Some(Found(entries[key].value, key)) else None
  }

  /**
   * `createOne(type, metadata, ttl)`: stores the metadata under the key of
   * the session id nanoid drew and returns that id with its handle.
   */
  method CreateOne(cache: TtlCache, kind: string, metadata: Value, ttl: nat, sessionId: string)
    returns (id: string, handle: string)
    modifies cache
    ensures id == sessionId && handle == SessionCodeName(kind, sessionId)
    ensures cache.entries == old(cache.entries)[handle := Entry(metadata, old(cache.now) + ttl)]
    ensures cache.now == old(cache.now)
  {
    handle := SessionCodeName(kind, sessionId);
    cache.Set(handle, metadata, ttl);
    id := sessionId;
  }

  /** `getOne(type, sessionId)`: the metadata and the handle, or null. Reading deletes nothing. */
  function GetOne(cache: TtlCache, kind: string, sessionId: string): (r: Option<Found>)
    reads cache
    ensures r == Lookup(cache.entries, cache.now, kind, sessionId)
    ensures r.Some? <==> cache.Has(SessionCodeName(kind, sessionId))
  {
    var key := SessionCodeName(kind, sessionId);
    if cache.Has(key) then Some(Found(cache.Get(key), key)) else None
  }

  /** The `deleteIt` closure: removes exactly the entry behind the handle. */
  method Consume(cache: TtlCache, handle: string)
    modifies cache
    ensures cache.entries == old(cache.entries) - {handle}
    ensures cache.now == old(cache.now)
  {
    cache.Del(handle);
  }

  // ----- properties of the key and of the store -----

  lemma PrefixDelimiters()
    ensures Occurrences("passkey:", ':') == 1
    ensures Occurrences([':'], ':') == 1
  {
    var p := "passkey:";
    assert p[1..] == "asskey:" && p[1..][1..] == "sskey:" && p[1..][1..][1..] == "skey:";
    assert "skey:"[1..] == "key:" && "key:"[1..] == "ey:" && "ey:"[1..] == "y:" && "y:"[1..] == ":";
    assert ":"[1..] == [];
  }

  /** A key holds the `:` of its parts plus its own two. */
  lemma DelimiterCount(kind: string, sessionId: string)
    ensures Occurrences(SessionCodeName(kind, sessionId), ':')
            == 2 + Occurrences(kind, ':') + Occurrences(sessionId, ':')
  {
    PrefixDelimiters();
    OccurrencesAppend("passkey:", kind, ':');
    OccurrencesAppend("passkey:" + kind, [':'], ':');
    OccurrencesAppend("passkey:" + kind + [':'], sessionId, ':');
  }

  lemma KeyTail(kind: string, sessionId: string)
    ensures |SessionCodeName(kind, sessionId)| >= 8
    ensures SessionCodeName(kind, sessionId)[8..] == kind + [':'] + sessionId
  {
  }

  /**
   * The key of a session created with a tag and a nanoid id names it
   * uniquely: any `getOne` arguments that reach it are its own.
   */
  lemma SessionCodeNameInjective(kind: string, sessionId: string, kind': string, sessionId': string)
    requires CodeSession.IsTag(kind) && CodeSession.IsNanoId(sessionId)
    requires SessionCodeName(kind, sessionId) == SessionCodeName(kind', sessionId')
    ensures kind == kind' && sessionId == sessionId'
  {
    CodeSession.NanoIdNoDelimiters(sessionId);
    DelimiterCount(kind, sessionId);
    DelimiterCount(kind', sessionId');
    OccurrencesNone(kind, ':');
    OccurrencesNone(sessionId, ':');
    OccurrencesNone(kind', ':');
    KeyTail(kind, sessionId);
    KeyTail(kind', sessionId');
    CutAtFirst(kind, sessionId, kind', sessionId', ':');
  }

  /** Passkey keys start `passkey:` and code keys `code:`: the two stores never share an entry. */
  lemma DisjointFromCodeSessions(kind: string, sessionId: string, kind': string, sessionId': string, code: string)
    ensures SessionCodeName(kind, sessionId) != CodeSession.SessionCodeName(kind', sessionId', code)
  {
    assert SessionCodeName(kind, sessionId)[0] == 'p';
    assert CodeSession.SessionCodeName(kind', sessionId', code)[0] == 'c';
  }

  /** A lookup before expiry with the pair a create used finds the stored metadata. */
  lemma LookupAfterCreate(entries: map<string, Entry>, createdAt: int, ttl: nat, now: int,
                          kind: string, sessionId: string, metadata: Value)
    requires createdAt <= now < createdAt + ttl
    ensures Lookup(entries[SessionCodeName(kind, sessionId) := Entry(metadata, createdAt + ttl)], now, kind, sessionId)
            == Some(Found(metadata, SessionCodeName(kind, sessionId)))
  {
  }

  /** Creating a session is invisible to every other type and session id. */
  lemma CreateInvisibleToOthers(entries: map<string, Entry>, e: Entry, now: int,
                                kind: string, sessionId: string, kind': string, sessionId': string)
    requires CodeSession.IsTag(kind) && CodeSession.IsNanoId(sessionId)
    requires (kind', sessionId') != (kind, sessionId)
    ensures Lookup(entries[SessionCodeName(kind, sessionId) := e], now, kind', sessionId')
            == Lookup(entries, now, kind', sessionId')
  {
    if SessionCodeName(kind, sessionId) == SessionCodeName(kind', sessionId') {
      SessionCodeNameInjective(kind, sessionId, kind', sessionId');
    }
  }

  /** An absent or expired key reads as null. */
  lemma ExpiredIsMiss(entries: map<string, Entry>, now: int, kind: string, sessionId: string)
    requires SessionCodeName(kind, sessionId) in entries ==> entries[SessionCodeName(kind, sessionId)].expiresAt <= now
    ensures Lookup(entries, now, kind, sessionId) == None
  {
  }

  /** Consuming a session makes it a miss and leaves every other created session as it was. */
  lemma ConsumeRemovesOnlyIt(entries: map<string, Entry>, now: int,
                             kind: string, sessionId: string, kind': string, sessionId': string)
    requires CodeSession.IsTag(kind') && CodeSession.IsNanoId(sessionId')
    requires (kind', sessionId') != (kind, sessionId)
    ensures Lookup(entries - {SessionCodeName(kind, sessionId)}, now, kind, sessionId) == None
    ensures Lookup(entries - {SessionCodeName(kind, sessionId)}, now, kind', sessionId')
            == Lookup(entries, now, kind', sessionId')
  {
    if SessionCodeName(kind, sessionId) == SessionCodeName(kind', sessionId') {
      SessionCodeNameInjective(kind', sessionId', kind, sessionId);
    }
  }
}
