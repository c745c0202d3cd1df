/**
 * The authentication middleware (src/middlewares/auth.js): parse the
 * `Authorization` header into a method and a secret, dispatch on the
 * method, check a system administrator's address and secret, and for a
 * service token refetch the profile when the cached `TokenU:<id>` stamp
 * says the token's copy is stale.
 */
module Auth {
  import opened Js
  import opened Text
  import opened Cache
  import opened UserStore
  import SaraToken

  /** The own keys of `auth_methods`. */
  datatype Method = Sara | Sys

  function MethodNamed(name: string): (r: Option<Method>)
    ensures r == Some(Sara) <==> name == "SARA"
    ensures r == Some(Sys) <==> name == "SYS"
  {
    if name == "SARA" then Some(Sara) else if name == "SYS" then Some(Sys) else None
  }

  /**
   * The header split on single spaces must give exactly two pieces, the
   * method and the secret; a missing or empty header gives nothing.
   */
  function ParseAuthorization(header: Option<string>): (r: Option<(string, string)>)
    ensures r.Some? ==> ' ' !in r.value.0 && ' ' !in r.value.1
  {
    if header.None? || header.value == "" then None
    else
      var pieces := Split(header.value, ' ');
      if |pieces| != 2 then None else Some((pieces[0], pieces[1]))
  }

  /** What the middleware sets on the request before it calls `next`. */
  datatype Routing =
    | Untouched
    | Unsupported(authMethod: string, authSecret: string)
    | Dispatched(kind: Method, authMethod: string, authSecret: string)

  function Route(header: Option<string>): (r: Routing)
    ensures r.Untouched? <==> ParseAuthorization(header).None?
    ensures r.Dispatched? ==> MethodNamed(r.authMethod) == Some(r.kind)
  {
    match ParseAuthorization(header)
    case None => Untouched
    case Some((m, s)) =>
      match MethodNamed(m)
      case None => Unsupported(m, s)
      case Some(kind) => Dispatched(kind, m, s)
  }

  /** How a dispatched request ends: `next()` runs, or the request is left pending. */
  datatype Completion = CallsNext | Pending

  /** The names src/utils/sara_token.js exports. */
  const SaraTokenExports: set<string> := {"issue", "validate"}

  /**
   * How a dispatched request ends as written. The SARA handler first calls
   * the imported `validateAuthToken`; a name the module does not export
   * imports as undefined, so the call throws, the handler's promise
   * rejects, the `catch` only logs it and `next()` never runs.
   */
  function CompletionAsWritten(m: Method): (r: Completion)
    ensures r == Pending <==> m == Sara && "validateAuthToken" !in SaraTokenExports
  {
    match m
    case Sys => CallsNext
    case Sara => if "validateAuthToken" in SaraTokenExports then CallsNext else Pending
  }

  /**
   * The SYS method: the client's address and the secret must equal the
   * configured ones; an unset setting never matches.
   */
  function SysAuthenticated(clientIp: string, secret: string, adminIp: Option<string>, adminSecret: Option<string>): (r: bool)
    ensures r ==> adminIp.Some? && adminSecret.Some?
  {
    Some(clientIp) == adminIp && Some(secret) == adminSecret
  }

  // ----- the freshness check of the SARA method -----

  /** Where the session's profile comes from once the check is done. */
  datatype Profile = NoProfile | FromToken(user: Object) | FromDatabase(stored: Snapshot)

  /** The profile the check settles on, and the stamp it writes, if any. */
  datatype Refreshed = Refreshed(profile: Profile, stamp: Option<(string, Value)>)

  /**
   * The check over a cache state, for the token's verified payload (`None`
   * when validation aborted) and the stored users. A live stamp equal to the
   * token's `updated_at` keeps the token's profile; anything else refetches
   * the user and, when found, stamps its `updated_at` afresh.
   */
  function Refresh(entries: map<string, Entry>, now: int, session: Option<SaraToken.Claims>,
                   users: map<string, Snapshot>): (r: Refreshed)
    ensures session.None? ==> r == Refreshed(NoProfile, None)
    ensures r.stamp.Some? ==>
      && session.Some? && session.value.sub.Str?
      && var id := session.value.sub.s;
      && id in users && r.stamp.value == (TokenKey(id), users[id].updatedAt)
      && r.profile == FromDatabase(users[id])
  {
    match session
    case None => Refreshed(NoProfile, None)
    case Some(claims) =>
      if !(claims.sub.Str? && claims.sub.s != "") then Refreshed(FromToken(claims.user), None)
      else
        var id := claims.sub.s;
        var key := TokenKey(id);
        var cached := if key in entries && now < entries[key].expiresAt then entries[key].value else Undefined;
        if cached == Get(claims.user, "updated_at") then Refreshed(FromToken(claims.user), None)
        else if id in users then Refreshed(FromDatabase(users[id]), Some((key, users[id].updatedAt)))
        else Refreshed(NoProfile, None)
  }

  /** The check on the shared cache: it writes at most the one stamp `Refresh` names, for an hour. */
  method SaraRefresh(cache: TtlCache, session: Option<SaraToken.Claims>, users: map<string, Snapshot>)
    returns (profile: Profile)
    modifies cache
    ensures var r := Refresh(old(cache.entries), old(cache.now), session, users);
      && profile == r.profile
      && cache.entries == (if r.stamp.Some? then old(cache.entries)[r.stamp.value.0 := Entry(r.stamp.value.1, old(cache.now) + StampTtl)]
                           else old(cache.entries))
    ensures cache.now == old(cache.now)
  {
    var r := Refresh(cache.entries, cache.now, session, users);
    if r.stamp.Some? {
      cache.Set(r.stamp.value.0, r.stamp.value.1, StampTtl);
    }
    profile := r.profile;
  }

  // ----- properties -----

  /** A parsed header is exactly the method, one space and the secret. */
  lemma ParseComplete(header: Option<string>)
    requires ParseAuthorization(header).Some?
    ensures var (m, s) := ParseAuthorization(header).value;
      header == Some(m + " " + s)
  {
    var pieces := Split(header.value, ' ');
    JoinSplit(header.value, ' ');
    assert pieces == [pieces[0], pieces[1]];
    assert Join(pieces, ' ') == pieces[0] + [' '] + Join(pieces[1..], ' ');
  }

  /** Any method and secret without spaces are parsed back from `method + " " + secret`. */
  lemma ParseSound(m: string, s: string)
    requires ' ' !in m && ' ' !in s
    ensures ParseAuthorization(Some(m + " " + s)) == Some((m, s))
  {
    SplitJoin([m, s], ' ');
    assert Join([m, s], ' ') == m + " " + s;
    assert (m + " " + s)[|m|] == ' ';
  }

  /**
   * As written, every `SARA <token>` header is dispatched to the SARA
   * handler and the request is then left pending: `next()` is never called.
   */
  lemma SaraHangsAsWritten(secret: string)
    requires ' ' !in secret
    ensures Route(Some("SARA " + secret)) == Dispatched(Sara, "SARA", secret)
    ensures CompletionAsWritten(Sara) == Pending && CompletionAsWritten(Sys) == CallsNext
  {
    ParseSound("SARA", secret);
    assert "SARA" + " " + secret == "SARA " + secret;
    assert "validateAuthToken" !in SaraTokenExports;
  }

  /** A secret holding a space leaves the request untouched. */
  lemma SpaceInSecretUntouched(m: string, s: string)
    requires ' ' !in m && ' ' in s
    ensures Route(Some(m + " " + s)) == Untouched
  {
    if ParseAuthorization(Some(m + " " + s)).Some? {
      ParseComplete(Some(m + " " + s));
      var (m', s') := ParseAuthorization(Some(m + " " + s)).value;
      assert m + [' '] + s == m' + [' '] + s';
      CutAtFirst(m, s, m', s', ' ');
      assert false;
    }
  }

  /** A SYS request is authenticated exactly by the configured address and secret, both set. */
  lemma SysRequest(secret: string, clientIp: string, adminIp: Option<string>, adminSecret: Option<string>)
    requires ' ' !in secret
    ensures Route(Some("SYS " + secret)) == Dispatched(Sys, "SYS", secret)
    ensures SysAuthenticated(clientIp, secret, adminIp, adminSecret) <==> adminIp == Some(clientIp) && adminSecret == Some(secret)
  {
    ParseSound("SYS", secret);
    assert "SYS" + " " + secret == "SYS " + secret;
  }

  /** A live stamp equal to the token's `updated_at` keeps the token's profile and writes nothing. */
  lemma FreshTokenKept(entries: map<string, Entry>, now: int, claims: SaraToken.Claims, users: map<string, Snapshot>)
    requires claims.sub.Str?
    requires TokenKey(claims.sub.s) in entries && now < entries[TokenKey(claims.sub.s)].expiresAt
    requires entries[TokenKey(claims.sub.s)].value == Get(claims.user, "updated_at")
    ensures Refresh(entries, now, Some(claims), users) == Refreshed(FromToken(claims.user), None)
  {
  }

  /**
   * After `saveData` stamped a user at time `t`, a token carrying an older
   * copy of that user, presented within the hour, gets the stored profile.
   */
  lemma SavedUserRefetched(entries: map<string, Entry>, savedAt: int, t: int, now: int,
                           claims: SaraToken.Claims, users: map<string, Snapshot>)
    requires claims.sub.Str? && claims.sub.s != "" && claims.sub.s in users
    requires savedAt <= now < savedAt + StampTtl
    requires Get(claims.user, "updated_at") != Num(t)
    ensures var stamped := entries[TokenKey(claims.sub.s) := Entry(Num(t), savedAt + StampTtl)];
      Refresh(stamped, now, Some(claims), users).profile == FromDatabase(users[claims.sub.s])
  {
  }

  /**
   * A token whose user has no live stamp (never stamped, deleted or past
   * its hour) but carries an `updated_at` refetches the stored user and
   * stamps it; an unknown user leaves no profile.
   */
  lemma MissingStampRefetches(entries: map<string, Entry>, now: int, claims: SaraToken.Claims,
                              users: map<string, Snapshot>)
    requires claims.sub.Str? && claims.sub.s != ""
    requires !(TokenKey(claims.sub.s) in entries && now < entries[TokenKey(claims.sub.s)].expiresAt)
    requires Get(claims.user, "updated_at") != Undefined
    ensures var id := claims.sub.s;
      Refresh(entries, now, Some(claims), users)
        == if id in users then Refreshed(FromDatabase(users[id]), Some((TokenKey(id), users[id].updatedAt)))
           else Refreshed(NoProfile, None)
  {
  }

  /**
   * A refetch makes the next check a hit: once the stamp of the stored
   * profile is written, a token carrying that profile's `updated_at` keeps
   * its own profile for the hour.
   */
  lemma RefetchThenHit(entries: map<string, Entry>, now: int, later: int, claims: SaraToken.Claims,
                       claims': SaraToken.Claims, users: map<string, Snapshot>)
    requires Refresh(entries, now, Some(claims), users).stamp.Some?
    requires claims'.sub == claims.sub
    requires Get(claims'.user, "updated_at") == users[claims.sub.s].updatedAt
    requires now <= later < now + StampTtl
    ensures var stamp := Refresh(entries, now, Some(claims), users).stamp.value;
      Refresh(entries[stamp.0 := Entry(stamp.1, now + StampTtl)], later, Some(claims'), users)
        == Refreshed(FromToken(claims'.user), None)
  {
  }
}
