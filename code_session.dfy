/**
 * The one-time code session store (src/utils/code_session.js): metadata is
 * bound, with a TTL, to the cache key `code:<type>:<sessionId>@<code>`.
 * The `deleteIt` closures become the explicit `Consume(handle)`, where the
 * handle is the cache key a create or a lookup returned.
 */
module CodeSession {
  import opened Js
  import opened Text
  import opened Cache
  import Native

  /** The cache key of a code session. */
  function SessionCodeName(kind: string, sessionId: string, code: string): (r: string)
    ensures |r| == |kind| + |sessionId| + |code| + 7
    ensures r[..5] == "code:" && r[|r| - |code|..] == code
  {
    "code:" + kind + ":" + sessionId + "@" + code
  }

  /** The characters of nanoid's URL-safe alphabet. */
  predicate IsNanoIdChar(c: char) {
    ('A' <= c <= 'Z') || ('a' <= c <= 'z') || ('0' <= c <= '9') || c == '_' || c == '-'
  }

  /** A session id as nanoid produces it. */
  predicate IsNanoId(s: string) {
    forall i :: 0 <= i < |s| ==> IsNanoIdChar(s[i])
  }

  /** A session namespace tag such as `create_token`: no key delimiter in it. */
  predicate IsTag(s: string) {
    ':' !in s && '@' !in s
  }

  /** A session the store created: a tag, a nanoid id and a code of digits. */
  predicate WellFormed(kind: string, sessionId: string, code: string) {
    IsTag(kind) && IsNanoId(sessionId) && AllDigits(code)
  }

  datatype Created = Created(code: string, sessionId: string, handle: string)
  datatype Found = Found(metadata: Value, handle: string)

  /** `getOne` on a cache state given as its entries and its clock. */
  function Lookup(entries: map<string, Entry>, now: int, kind: string, sessionId: string, code: string): (r: Option<Found>)
    ensures r.Some? <==> (var k := SessionCodeName(kind, sessionId, code); k in entries && now < entries[k].expiresAt)
    ensures r.Some? ==>
      && r.value.handle == SessionCodeName(kind, sessionId, code)
      && r.value.metadata == entries[r.value.handle].value
  {
    var key := SessionCodeName(kind, sessionId, code);
    if key in entries && now < entries[key].expiresAt then Some(Found(entries[key].value, key)) else None
  }

  /**
   * `createOne(type, metadata, codeLength, ttl)`. `sessionId` is the id
   * nanoid drew and `draw` the integer `randomInt` drew. When the code
   * length is refused the generator throws and nothing is cached.
   */
  method CreateOne(cache: TtlCache, kind: string, metadata: Value, codeLength: int, ttl: nat,
                   sessionId: string, draw: int)
    returns (r: Option<Created>)
    requires Native.CodeLengthAccepted(codeLength) ==> 0 <= draw < Pow10(codeLength) - 1
    modifies cache
    ensures r.Some? <==> Native.CodeLengthAccepted(codeLength)
    ensures r.None? ==> cache.entries == old(cache.entries)
    ensures r.Some? ==>
      && Native.GenerateRandomCode(codeLength, draw) == Some(r.value.code)
      && r.value.sessionId == sessionId
      && r.value.handle == SessionCodeName(kind, sessionId, r.value.code)
      && cache.entries == old(cache.entries)[r.value.handle := Entry(metadata, old(cache.now) + ttl)]
    ensures cache.now == old(cache.now)
  {
    var code := Native.GenerateRandomCode(codeLength, draw);
    if code.None? {
      return None;
    }
    var key := SessionCodeName(kind, sessionId, code.value);
    cache.Set(key, metadata, ttl);
    r := Some(Created(code.value, sessionId, key));
  }

  /** `getOne(type, sessionId, code)`: the metadata and the handle, or null. Reading deletes nothing. */
  function GetOne(cache: TtlCache, kind: string, sessionId: string, code: string): (r: Option<Found>)
    reads cache
    ensures r == Lookup(cache.entries, cache.now, kind, sessionId, code)
    ensures r.Some? <==> cache.Has(SessionCodeName(kind, sessionId, code))
  {
    var key := SessionCodeName(kind, sessionId, code);
    if cache.Has(key) then Some(Found(cache.Get(key), key)) else None
  }

  /** The `deleteIt` closure: removes exactly the entry behind the handle. */
  method Consume(cache: TtlCache, handle: string)
    modifies cache
    ensures cache.entries == old(cache.entries) - {handle}
    ensures cache.now == old(cache.now)
  {
    cache.Del(handle);
  }

  // ----- properties of the key and of the store -----

  lemma AllDigitsNoDelimiters(s: string)
    requires AllDigits(s)
    ensures ':' !in s && '@' !in s
  {
  }

  lemma NanoIdNoDelimiters(s: string)
    requires IsNanoId(s)
    ensures ':' !in s && '@' !in s
  {
  }

  /**
   * The key of a session the store created names it uniquely: whatever
   * strings a caller passes to `getOne`, they reach that entry only if they
   * are its own type, session id and code.
   */
  lemma SessionCodeNameInjective(kind: string, sessionId: string, code: string,
                                 kind': string, sessionId': string, code': string)
    requires WellFormed(kind, sessionId, code)
    requires SessionCodeName(kind, sessionId, code) == SessionCodeName(kind', sessionId', code')
    ensures kind == kind' && sessionId == sessionId' && code == code'
  {
    NanoIdNoDelimiters(sessionId);
    AllDigitsNoDelimiters(code);
    CreatedKeyDelimiters(kind, sessionId, code);
    LookupKeyDelimiters(kind', sessionId', code');
    KeyTail(kind, sessionId, code);
    KeyTail(kind', sessionId', code');
    CutAtFirst(kind, sessionId + ['@'] + code, kind', sessionId' + ['@'] + code', ':');
    CutAtFirst(sessionId, code, sessionId', code', '@');
  }

  lemma KeyTail(kind: string, sessionId: string, code: string)
    ensures |SessionCodeName(kind, sessionId, code)| >= 5
    ensures SessionCodeName(kind, sessionId, code)[5..] == kind + [':'] + (sessionId + ['@'] + code)
  {
  }

  lemma PrefixDelimiters()
    ensures Occurrences("code:", ':') == 1 && Occurrences("code:", '@') == 0
    ensures Occurrences([':'], ':') == 1 && Occurrences([':'], '@') == 0
    ensures Occurrences(['@'], ':') == 0 && Occurrences(['@'], '@') == 1
  {
    assert "code:"[1..] == "ode:" && "ode:"[1..] == "de:" && "de:"[1..] == "e:" && "e:"[1..] == ":";
    assert ":"[1..] == [] && ['@'][1..] == [];
  }

  /** A created key holds exactly two `:` and one `@`. */
  lemma CreatedKeyDelimiters(kind: string, sessionId: string, code: string)
    requires ':' !in kind && '@' !in kind && ':' !in sessionId && '@' !in sessionId
    requires ':' !in code && '@' !in code
    ensures Occurrences(SessionCodeName(kind, sessionId, code), ':') == 2
    ensures Occurrences(SessionCodeName(kind, sessionId, code), '@') == 1
  {
    PrefixDelimiters();
    DelimiterCounts(kind, sessionId, code, ':');
    DelimiterCounts(kind, sessionId, code, '@');
    OccurrencesNone(kind, ':');
    OccurrencesNone(sessionId, ':');
    OccurrencesNone(code, ':');
    OccurrencesNone(kind, '@');
    OccurrencesNone(sessionId, '@');
    OccurrencesNone(code, '@');
  }

  /** A key with only two `:` and one `@` has none in its type and none `@` in its session id. */
  lemma LookupKeyDelimiters(kind: string, sessionId: string, code: string)
    requires Occurrences(SessionCodeName(kind, sessionId, code), ':') == 2
    requires Occurrences(SessionCodeName(kind, sessionId, code), '@') == 1
    ensures ':' !in kind && '@' !in sessionId
  {
    PrefixDelimiters();
    DelimiterCounts(kind, sessionId, code, ':');
    DelimiterCounts(kind, sessionId, code, '@');
    OccurrencesNone(kind, ':');
    OccurrencesNone(sessionId, '@');
  }

  /** A key holds the delimiters of its parts plus its own two `:` and one `@`. */
  lemma DelimiterCounts(kind: string, sessionId: string, code: string, c: char)
    ensures Occurrences(SessionCodeName(kind, sessionId, code), c)
            == Occurrences("code:", c) + Occurrences(kind, c) + Occurrences([':'], c)
               + Occurrences(sessionId, c) + Occurrences(['@'], c) + Occurrences(code, c)
  {
    var a, b, d, e := "code:" + kind, "code:" + kind + [':'], "code:" + kind + [':'] + sessionId,
                      "code:" + kind + [':'] + sessionId + ['@'];
    OccurrencesAppend("code:", kind, c);
    OccurrencesAppend(a, [':'], c);
    OccurrencesAppend(b, sessionId, c);
    OccurrencesAppend(d, ['@'], c);
    OccurrencesAppend(e, code, c);
  }

  /** A lookup before expiry with the triple a create returned finds the stored metadata. */
  lemma {:induction false} LookupAfterCreate(entries: map<string, Entry>, createdAt: int, ttl: nat, now: int,
                                             kind: string, sessionId: string, code: string, metadata: Value)
    requires createdAt <= now < createdAt + ttl
    ensures Lookup(entries[SessionCodeName(kind, sessionId, code) := Entry(metadata, createdAt + ttl)],
                   now, kind, sessionId, code)
            == Some(Found(metadata, SessionCodeName(kind, sessionId, code)))
  {
  }

  /**
   * Creating a session is invisible to every other triple: a wrong type,
   * session id or code reads exactly what it read before, which for a key
   * nobody stored is the same null.
   */
  lemma CreateInvisibleToOthers(entries: map<string, Entry>, e: Entry, now: int,
                                kind: string, sessionId: string, code: string,
                                kind': string, sessionId': string, code': string)
    requires WellFormed(kind, sessionId, code)
    requires (kind', sessionId', code') != (kind, sessionId, code)
    ensures Lookup(entries[SessionCodeName(kind, sessionId, code) := e], now, kind', sessionId', code')
            == Lookup(entries, now, kind', sessionId', code')
  {
    if SessionCodeName(kind, sessionId, code) == SessionCodeName(kind', sessionId', code') {
      SessionCodeNameInjective(kind, sessionId, code, kind', sessionId', code');
    }
  }

  /** An entry reads as null once its TTL has run out, whoever asks. */
  lemma ExpiredIsMiss(entries: map<string, Entry>, now: int, kind: string, sessionId: string, code: string)
    requires SessionCodeName(kind, sessionId, code) in entries
    requires entries[SessionCodeName(kind, sessionId, code)].expiresAt <= now
    ensures Lookup(entries, now, kind, sessionId, code) == None
  {
  }

  /**
   * Consuming a session makes it a miss for its own triple, and leaves
   * every other well-formed session exactly as it was.
   */
  lemma ConsumeRemovesOnlyIt(entries: map<string, Entry>, now: int,
                             kind: string, sessionId: string, code: string,
                             kind': string, sessionId': string, code': string)
    requires WellFormed(kind', sessionId', code')
    requires (kind', sessionId', code') != (kind, sessionId, code)
    ensures Lookup(entries - {SessionCodeName(kind, sessionId, code)}, now, kind, sessionId, code) == None
    ensures Lookup(entries - {SessionCodeName(kind, sessionId, code)}, now, kind', sessionId', code')
            == Lookup(entries, now, kind', sessionId', code')
  {
    if SessionCodeName(kind, sessionId, code) == SessionCodeName(kind', sessionId', code') {
      SessionCodeNameInjective(kind', sessionId', code', kind, sessionId, code);
    }
  }

  /**
   * The single-use scenario: create a six-digit session, read it back,
   * consume it, and the same read is then null.
   */
  method SingleUse(cache: TtlCache, sessionId: string, draw: int)
    requires 0 <= draw < Pow10(6) - 1
    modifies cache
  {
    var email := Obj(map["email" := Str("a@b.co")]);
    var created := CreateOne(cache, "create_token", email, 6, 1800, sessionId, draw);
    assert Native.CodeLengthAccepted(6);
    var c := created.value;
    var found := GetOne(cache, "create_token", c.sessionId, c.code);
    assert found == Some(Found(email, c.handle));
    var again := GetOne(cache, "create_token", c.sessionId, c.code);
    assert again == found;
    Consume(cache, found.value.handle);
    var gone := GetOne(cache, "create_token", c.sessionId, c.code);
    assert gone == None;
  }
}
