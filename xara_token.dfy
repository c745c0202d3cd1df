/**
 * The guarded bearer token (src/utils/xara_token.js): an ES256-signed JWT
 * carrying `{user, sub, jti}`, a `|`, and `HMAC-SHA256(jti, guardSecret)`
 * in hex. Signing, verification and the HMAC are parameters; `Sound` states
 * what is assumed of them.
 */
module XaraToken {
  import opened Js
  import opened Text
  import opened Jwt

  /** The claims xara signs: the profile snapshot, its subject and the token id (a ULID). */
  datatype Claims = Claims(user: Object, sub: Value, jti: string)

  /**
   * The signing environment. `sign(claims, t)` is `sign` with the private
   * key and the issue options at time `t` (milliseconds); `verify(token, t)`
   * is `verify` with the public key and the validate options at time `t`,
   * `None` when it throws; `hmac(data, key)` is the hex HMAC-SHA256.
   */
  datatype Keys = Keys(
    sign: (Claims, int) -> string,
    verify: (string, int) -> Option<Claims>,
    hmac: (string, string) -> string,
    guardSecret: string)

  /**
   * What is assumed of the environment: a token signed at `t` verifies to
   * its claims while inside its validity window; a compact JWS (base64url
   * and dots) and a hex digest never contain `|`.
   */
  ghost predicate Sound(k: Keys) {
    && (forall c, t, now :: InWindow(t, now) ==> k.verify(k.sign(c, t), now) == Some(c))
    && (forall c, t :: '|' !in k.sign(c, t))
    && (forall d, key :: '|' !in k.hmac(d, key))
  }

  datatype Error = SignatureRejected | GuardMismatch

  datatype Payload = NoPayload | Profile(profile: Object) | Thrown(error: Error)

  /** The `{userId, payload, isAborted}` record `validate` returns. */
  datatype ValidateResult = ValidateResult(userId: Value, payload: Payload, isAborted: bool)

  /** `issue(user)` at time `now`, with `jti` the ULID drawn for it. */
  function Issue(k: Keys, user: Object, jti: string, now: int): (r: string)
    ensures var signed := k.sign(Claims(user, Get(user, "_id"), jti), now);
      '|' !in signed && '|' !in k.hmac(jti, k.guardSecret) ==>
        Pieces(r) == (signed, Some(k.hmac(jti, k.guardSecret)))
  {
    var signed := k.sign(Claims(user, Get(user, "_id"), jti), now);
    var guard := k.hmac(jti, k.guardSecret);
    if '|' !in signed && '|' !in guard then
      PiecesOfJoin(signed, guard);
      Join([signed, guard], '|')
    else Join([signed, guard], '|')
  }

  /** `token.split("|", 2)`: the signed part and, when there is a `|`, the guard. */
  function Pieces(token: string): (r: (string, Option<string>))
    ensures '|' !in r.0
    ensures r.1.None? <==> '|' !in token
    ensures r.1.Some? ==> '|' !in r.1.value
  {
    var p := SplitLimit(token, '|', 2);
    SplitSingle(token, '|');
    (p[0], if |p| == 2 then Some(p[1]) else None)
  }

  /**
   * `validate(token)`: verify the signed part first; only then compare the
   * guard with the HMAC of the verified `jti`.
   */
  function Validate(k: Keys, token: string, now: int): (r: ValidateResult)
    ensures r.isAborted ==> r.userId == Null && r.payload.Thrown?
    ensures !r.isAborted ==> r.payload.Profile? && '|' in token
    ensures k.verify(Pieces(token).0, now).Some? ==>
      var claims := k.verify(Pieces(token).0, now).value;
      && (!r.isAborted <==> Pieces(token).1 == Some(k.hmac(claims.jti, k.guardSecret)))
      && (!r.isAborted ==> r.userId == claims.sub && r.payload == Profile(claims.user))
    ensures k.verify(Pieces(token).0, now).None? ==> r.payload == Thrown(SignatureRejected)
  {
    var (signed, guard) := Pieces(token);
    match k.verify(signed, now)
    case None => ValidateResult(Null, Thrown(SignatureRejected), true)
    case Some(claims) =>
      if guard != Some(k.hmac(claims.jti, k.guardSecret)) then ValidateResult(Null, Thrown(GuardMismatch), true)
      else ValidateResult(claims.sub, Profile(claims.user), false)
  }

  /**
   * `update(token, user)` at time `now`: re-sign the verified claims with the
   * profile overlaid by `user`, and put the original guard piece back
   * (`join` renders a missing one as empty). `None` is the error `verify` throws.
   */
  function Update(k: Keys, token: string, user: Object, now: int): (r: Option<string>)
    ensures r.None? <==> k.verify(Pieces(token).0, now).None?
  {
    var (original, guard) := Pieces(token);
    match k.verify(original, now)
    case None => None
    case Some(claims) =>
      var resigned := k.sign(claims.(user := Overlay(claims.user, user)), now);
      Some(Join([resigned, if guard.Some? then guard.value else ""], '|'))
  }

  /** The members of the payload `verify` hands back: the three claims and what `sign` added. */
  const VerifiedMembers: set<string> := {"user", "sub", "jti"} + SignedMembers

  /**
   * `update` as written: the verified payload, `exp`, `nbf`, `iss` and
   * `aud` included, goes back to `sign` with the issue options, which the
   * library refuses; `None` is the error either step throws.
   */
  function UpdateAsWritten(k: Keys, token: string, user: Object, now: int): (r: Option<string>)
    ensures r.Some? ==> r == Update(k, token, user, now)
  {
    match k.verify(Pieces(token).0, now)
    case None => None
    case Some(_) => if SignAccepts(VerifiedMembers) then Update(k, token, user, now) else None
  }

  // ----- properties -----

  /** `a|b` with no `|` in either part splits back into the two parts. */
  lemma PiecesOfJoin(a: string, b: string)
    requires '|' !in a && '|' !in b
    ensures Pieces(Join([a, b], '|')) == (a, Some(b))
  {
    SplitJoin([a, b], '|');
    assert Join([a, b], '|') == a + ['|'] + b;
    assert '|' in Join([a, b], '|') by {
      assert Join([a, b], '|')[|a|] == '|';
    }
  }

  /** Anything after a second `|` is ignored. */
  lemma ExtraPiecesIgnored(k: Keys, a: string, b: string, rest: string, now: int)
    requires '|' !in a && '|' !in b
    ensures Validate(k, a + "|" + b + "|" + rest, now) == Validate(k, a + "|" + b, now)
  {
    var t := a + "|" + b + "|" + rest;
    SplitAfterFirst(a, '|', b + "|" + rest);
    SplitAfterFirst(b, '|', rest);
    assert t == a + ['|'] + (b + ['|'] + rest);
    assert t[|a|] == '|';
    PiecesOfJoin(a, b);
    assert Join([a, b], '|') == a + "|" + b;
  }

  /**
   * The guard is never looked at before the signature: a signed part that
   * fails verification aborts the same way whatever guard follows it.
   */
  lemma GuardIgnoredOnBadSignature(k: Keys, signed: string, guard: string, now: int)
    requires '|' !in signed && '|' !in guard
    requires k.verify(signed, now).None?
    ensures Validate(k, signed + "|" + guard, now) == ValidateResult(Null, Thrown(SignatureRejected), true)
  {
    PiecesOfJoin(signed, guard);
    assert Join([signed, guard], '|') == signed + "|" + guard;
  }

  /** A guard that is not the HMAC of the verified `jti` aborts the token. */
  lemma TamperedGuardRejected(k: Keys, signed: string, guard: string, now: int)
    requires '|' !in signed && '|' !in guard
    requires k.verify(signed, now).Some?
    requires guard != k.hmac(k.verify(signed, now).value.jti, k.guardSecret)
    ensures Validate(k, signed + "|" + guard, now) == ValidateResult(Null, Thrown(GuardMismatch), true)
  {
    PiecesOfJoin(signed, guard);
    assert Join([signed, guard], '|') == signed + "|" + guard;
  }

  /** A token issued at `t` validates inside its window, to its subject and its profile. */
  lemma ValidateIssued(k: Keys, user: Object, jti: string, t: int, now: int)
    requires Sound(k) && InWindow(t, now)
    ensures Validate(k, Issue(k, user, jti, t), now)
            == ValidateResult(Get(user, "_id"), Profile(user), false)
  {
    var claims := Claims(user, Get(user, "_id"), jti);
    PiecesOfJoin(k.sign(claims, t), k.hmac(jti, k.guardSecret));
  }

  /** `update` keeps the guard piece of the original token byte for byte. */
  lemma UpdateKeepsGuard(k: Keys, token: string, user: Object, now: int)
    requires Sound(k)
    requires Update(k, token, user, now).Some?
    requires Pieces(token).1.Some?
    ensures Pieces(Update(k, token, user, now).value).1 == Pieces(token).1
  {
    var (original, guard) := Pieces(token);
    var claims := k.verify(original, now).value;
    var resigned := k.sign(claims.(user := Overlay(claims.user, user)), now);
    PiecesOfJoin(resigned, guard.value);
  }

  /**
   * The re-signed part carries the verified claims with only the profile
   * changed: old fields overlaid by the new ones, `sub` and `jti` kept.
   */
  lemma UpdateResigns(k: Keys, token: string, user: Object, now: int, later: int)
    requires Sound(k) && InWindow(now, later)
    requires Update(k, token, user, now).Some?
    ensures var before := k.verify(Pieces(token).0, now).value;
      k.verify(Pieces(Update(k, token, user, now).value).0, later)
        == Some(Claims(Overlay(before.user, user), before.sub, before.jti))
  {
    var (original, guard) := Pieces(token);
    var claims := k.verify(original, now).value;
    var resigned := k.sign(claims.(user := Overlay(claims.user, user)), now);
    PiecesOfJoin(resigned, if guard.Some? then guard.value else "");
  }

  /**
   * Issue, then update, then validate: the token still passes, because the
   * `jti` and so the guard are unchanged; the profile is the merged one.
   */
  lemma ValidateUpdated(k: Keys, user: Object, jti: string, changes: Object, t1: int, t2: int, t3: int)
    requires Sound(k) && InWindow(t1, t2) && InWindow(t2, t3)
    ensures Update(k, Issue(k, user, jti, t1), changes, t2).Some?
    ensures Validate(k, Update(k, Issue(k, user, jti, t1), changes, t2).value, t3)
            == ValidateResult(Get(user, "_id"), Profile(Overlay(user, changes)), false)
  {
    var claims := Claims(user, Get(user, "_id"), jti);
    var guard := k.hmac(jti, k.guardSecret);
    PiecesOfJoin(k.sign(claims, t1), guard);
    var merged := claims.(user := Overlay(user, changes));
    PiecesOfJoin(k.sign(merged, t2), guard);
  }

  /**
   * As written, `update` never returns a token, not even for one `issue`
   * has just produced, where the intended re-signing succeeds.
   */
  lemma UpdateAsWrittenAlwaysThrows(k: Keys, user: Object, jti: string, changes: Object, t1: int, t2: int,
                                    token: string, now: int)
    requires Sound(k) && InWindow(t1, t2)
    ensures UpdateAsWritten(k, token, changes, now) == None
    ensures UpdateAsWritten(k, Issue(k, user, jti, t1), changes, t2) == None
    ensures Update(k, Issue(k, user, jti, t1), changes, t2).Some?
  {
    assert "exp" in VerifiedMembers && "exp" in OptionMembers;
    PiecesOfJoin(k.sign(Claims(user, Get(user, "_id"), jti), t1), k.hmac(jti, k.guardSecret));
  }

  /**
   * A token without `|` has no guard piece; `join` renders the missing one
   * as empty, so the updated token ends in `|` with an empty guard.
   */
  lemma UpdateWithoutGuard(k: Keys, token: string, user: Object, now: int)
    requires Sound(k)
    requires Update(k, token, user, now).Some?
    requires Pieces(token).1.None?
    ensures Pieces(Update(k, token, user, now).value).1 == Some("")
  {
    var claims := k.verify(Pieces(token).0, now).value;
    PiecesOfJoin(k.sign(claims.(user := Overlay(claims.user, user)), now), "");
  }
}
