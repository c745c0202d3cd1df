/**
 * The HS256 token the service issues itself (src/utils/sara_token.js): the
 * payload `{user, sub}` with a `sara` header naming its version and type.
 * Signing and verification with the shared secret are parameters; `Sound`
 * states what is assumed of them.
 */
module SaraToken {
  import opened Js
  import opened Jwt

  /** The payload: the profile snapshot and its subject. */
  datatype Claims = Claims(user: Object, sub: Value)

  /** The registered claims both option sets name: issuer and audience. */
  datatype Registered = Registered(issuer: string, audience: string)

  /** What `verify(..., {complete: true})` returns. */
  datatype Decoded = Decoded(header: Object, payload: Claims)

  /**
   * `sign(payload, header, registered, t)` signs with the secret at time `t`;
   * `verify(token, registered, t)` checks signature, window, issuer and
   * audience, `None` when it throws.
   */
  datatype Signer = Signer(
    sign: (Claims, Object, Registered, int) -> string,
    verify: (string, Registered, int) -> Option<Decoded>)

  /**
   * What is assumed of the signer: inside the window a token verifies
   * against the issuer and audience it was signed for, with its payload and
   * the `sara` member of its header intact; against any other pair it is
   * rejected.
   */
  ghost predicate Sound(s: Signer) {
    && (forall c, h, reg, t, now :: InWindow(t, now) ==>
          && s.verify(s.sign(c, h, reg, t), reg, now).Some?
          && s.verify(s.sign(c, h, reg, t), reg, now).value.payload == c
          && Get(s.verify(s.sign(c, h, reg, t), reg, now).value.header, "sara") == Get(h, "sara"))
    && (forall c, h, reg, reg', t, now :: reg' != reg ==> s.verify(s.sign(c, h, reg, t), reg', now) == None)
  }

  /** The configuration the module reads at load time. */
  datatype Config = Config(issuerSetting: Option<string>, audience: string, jwtSecret: string)

  /** `get("SARA_ISSUER") || sha256hex(jwtSecret)`: an unset or empty setting falls back to the digest. */
  function Issuer(config: Config, sha256: string -> string): (r: string)
    ensures config.issuerSetting.Some? && config.issuerSetting.value != "" ==> r == config.issuerSetting.value
    ensures config.issuerSetting == None || config.issuerSetting == Some("") ==> r == sha256(config.jwtSecret)
  {
    if config.issuerSetting.Some? && config.issuerSetting.value != "" then config.issuerSetting.value
    else sha256(config.jwtSecret)
  }

  function Options(config: Config, sha256: string -> string): Registered {
    Registered(Issuer(config, sha256), config.audience)
  }

  /** The `sara` header member: version 1, type `auth`, and the service's endpoints. */
  function SaraHeader(point: Value): Object {
    map["sara" := Obj(map["version" := Num(1), "type" := Str("auth"), "point" := point])]
  }

  /** `header?.sara?.<name>`: undefined unless the member is an object. */
  function SaraField(header: Object, name: string): Value {
    match Get(header, "sara")
    case Obj(fields) => Get(fields, name)
    case _ => Undefined
  }

  datatype Error = VerifyFailed | InvalidTokenType

  datatype Payload = NoPayload | Verified(claims: Claims) | Thrown(error: Error)

  datatype ValidateResult = ValidateResult(userId: Value, payload: Payload, isAborted: bool)

  /** `issue(user)` at time `now`. */
  function Issue(s: Signer, config: Config, sha256: string -> string, point: Value, user: Object, now: int): (r: string)
    ensures Sound(s) ==> forall later | InWindow(now, later) ::
      && s.verify(r, Options(config, sha256), later).Some?
      && s.verify(r, Options(config, sha256), later).value.payload == Claims(user, Get(user, "_id"))
  {
    s.sign(Claims(user, Get(user, "_id")), SaraHeader(point), Options(config, sha256), now)
  }

  /**
   * `validate(token)`: a token that verifies is still refused unless its
   * header says version 1 (the number) and type `auth`.
   */
  function Validate(s: Signer, config: Config, sha256: string -> string, token: string, now: int): (r: ValidateResult)
    ensures !r.isAborted ==>
      && s.verify(token, Options(config, sha256), now).Some?
      && SaraField(s.verify(token, Options(config, sha256), now).value.header, "version") == Num(1)
      && SaraField(s.verify(token, Options(config, sha256), now).value.header, "type") == Str("auth")
    ensures r.isAborted <==> r.payload.Thrown?
    ensures r.isAborted ==> r.userId == Null
    ensures s.verify(token, Options(config, sha256), now).Some? ==>
      var d := s.verify(token, Options(config, sha256), now).value;
      SaraField(d.header, "version") == Num(1) && SaraField(d.header, "type") == Str("auth") ==>
        r == ValidateResult(d.payload.sub, Verified(d.payload), false)
  {
    match s.verify(token, Options(config, sha256), now)
    case None => ValidateResult(Null, Thrown(VerifyFailed), true)
    case Some(d) =>
      if SaraField(d.header, "version") != Num(1) || SaraField(d.header, "type") != Str("auth") then
        ValidateResult(Null, Thrown(InvalidTokenType), true)
      else ValidateResult(d.payload.sub, Verified(d.payload), false)
  }

  // ----- properties -----

  /**
   * Issue and validate share one configuration, so a token issued at `t`
   * validates inside its window, to its subject and its payload.
   */
  lemma ValidateIssued(s: Signer, config: Config, sha256: string -> string, point: Value, user: Object, t: int, now: int)
    requires Sound(s) && InWindow(t, now)
    ensures Validate(s, config, sha256, Issue(s, config, sha256, point, user, t), now)
            == ValidateResult(Get(user, "_id"), Verified(Claims(user, Get(user, "_id"))), false)
  {
    var reg := Options(config, sha256);
    var c := Claims(user, Get(user, "_id"));
    var h := SaraHeader(point);
    var d := s.verify(s.sign(c, h, reg, t), reg, now).value;
    assert Get(d.header, "sara") == Get(h, "sara");
  }

  /**
   * A deployment whose issuer or audience differs from the one a token was
   * issued under refuses the token.
   */
  lemma OtherDeploymentRejects(s: Signer, config: Config, config': Config, sha256: string -> string,
                               point: Value, user: Object, t: int, now: int)
    requires Sound(s)
    requires Options(config', sha256) != Options(config, sha256)
    ensures Validate(s, config', sha256, Issue(s, config, sha256, point, user, t), now)
            == ValidateResult(Null, Thrown(VerifyFailed), true)
  {
  }

  /** A verified token whose header lacks the `sara` marks is refused as the wrong type. */
  lemma WrongTypeRejected(s: Signer, config: Config, sha256: string -> string, token: string, now: int)
    requires s.verify(token, Options(config, sha256), now).Some?
    requires var h := s.verify(token, Options(config, sha256), now).value.header;
      SaraField(h, "version") != Num(1) || SaraField(h, "type") != Str("auth")
    ensures Validate(s, config, sha256, token, now) == ValidateResult(Null, Thrown(InvalidTokenType), true)
  {
  }
}
