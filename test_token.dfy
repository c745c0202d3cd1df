/**
 * The development-only token (src/utils/test_token.js): a seven-field
 * profile serialised to JSON, UTF-8 and base64, unsigned. JSON, UTF-8 and
 * the runtime's base64 decoder are parameters; `Sound` states what is
 * assumed of them.
 */
module TestToken {
  import opened Js
  import Base64

  /**
   * `stringify` is `JSON.stringify`, `parse` is `JSON.parse` (`None` when it
   * throws), `utf8Encode`/`utf8Decode` convert between text and bytes, and
   * `fromBase64` is `Buffer.from(text, "base64")`.
   */
  datatype Codec = Codec(
    stringify: Value -> string,
    parse: string -> Option<Value>,
    utf8Encode: string -> seq<Base64.Byte>,
    utf8Decode: seq<Base64.Byte> -> string,
    fromBase64: string -> seq<Base64.Byte>)

  /** The members `JSON.stringify` keeps: those whose value is not undefined. */
  function Defined(o: Object): (r: Object)
    ensures forall k :: k in r <==> k in o && o[k] != Undefined
    ensures forall k :: k in r ==> r[k] == o[k]
  {
    map k | k in o && o[k] != Undefined :: o[k]
  }

  /** An object JSON can carry: each member is undefined (and dropped) or a plain value. */
  predicate JsonReady(o: Object) {
    forall k :: k in o ==> o[k] == Undefined || Plain(o[k])
  }

  /**
   * What is assumed of the codec: parsing what `stringify` wrote for such an
   * object gives it back without its undefined members; UTF-8 decoding
   * undoes encoding; the lenient runtime decoder gives back the bytes of
   * every base64 encoding (by `Base64.StrictAgreement`, the same as agreeing
   * with strict decoding wherever that succeeds).
   */
  ghost predicate Sound(c: Codec) {
    && (forall o :: JsonReady(o) ==> c.parse(c.stringify(Obj(o))) == Some(Obj(Defined(o))))
    && (forall s :: c.utf8Decode(c.utf8Encode(s)) == s)
    && Base64.InvertsEncoding(c.fromBase64)
  }

  /** `DEFAULT_FAKE_USER`. */
  const DefaultFakeUser: Object := map[
    "_id" := Str("67345206787c5d2b9be61c37"),
    "nickname" := Str("The Fake User"),
    "email" := Str("the_fake_user@web-tech-tw.github.io"),
    "avatar_hash" := Str("fake_user"),
    "roles" := Arr([])]

  /** `newProfile()`: a copy of the default fake user, a JSON-ready object with no roles. */
  function NewProfile(): (r: Object)
    ensures Plain(Obj(r)) && JsonReady(r)
    ensures Get(r, "_id") == Str("67345206787c5d2b9be61c37") && Get(r, "roles") == Arr([])
  {
    DefaultFakeUser
  }

  /** The seven fields `issue` copies. */
  const ProfileFields: set<string> := {"_id", "email", "nickname", "avatar_hash", "roles", "created_at", "updated_at"}

  /** `value.name` on a non-nullish value: a member of an object, undefined otherwise. */
  function Prop(v: Value, name: string): Value {
    if v.Obj? then Get(v.fields, name) else Undefined
  }

  /** The `user` object `issue` builds: the seven fields of the data, undefined where absent. */
  function Projection(data: Value): (r: Object)
    ensures r.Keys == ProfileFields
    ensures forall k :: k in r ==> r[k] == Prop(data, k)
  {
    map k | k in ProfileFields :: Prop(data, k)
  }

  datatype Error = SyntaxError | TypeError

  datatype Payload = NoPayload | Profile(profile: Value) | Thrown(error: Error)

  datatype ValidateResult = ValidateResult(userId: Value, payload: Payload, isAborted: bool)

  /**
   * `issue(userData)`; `None` is the error thrown in production. Falsy data
   * falls back to the default fake user.
   */
  function Issue(c: Codec, production: bool, userData: Value): (r: Option<string>)
    ensures r.None? <==> production
  {
    if production then None
    else
      var data := if Truthy(userData) then userData else Obj(DefaultFakeUser);
      Some(Base64.Encode(c.utf8Encode(c.stringify(Obj(Projection(data))))))
  }

  /**
   * `validate(token)`; `None` is the error thrown in production. A text
   * that does not parse, or parses to null, aborts.
   */
  function Validate(c: Codec, production: bool, token: string): (r: Option<ValidateResult>)
    ensures r.None? <==> production
    ensures r.Some? && !r.value.isAborted ==> r.value.payload.Profile? && !r.value.payload.profile.Null?
    ensures r.Some? && !r.value.isAborted ==> r.value.userId == Prop(r.value.payload.profile, "_id")
    ensures r.Some? && r.value.isAborted ==> r.value.userId == Null && r.value.payload.Thrown?
    ensures !production && c.parse(c.utf8Decode(c.fromBase64(token))).None? ==>
      r.value.isAborted && r.value.payload == Thrown(SyntaxError)
    ensures !production && c.parse(c.utf8Decode(c.fromBase64(token))).Some? ==>
      var parsed := c.parse(c.utf8Decode(c.fromBase64(token))).value;
      && (r.value.isAborted <==> parsed.Null? || parsed.Undefined?)
      && (!r.value.isAborted ==> r.value.payload == Profile(parsed))
  {
    if production then None
    else
      match c.parse(c.utf8Decode(c.fromBase64(token)))
      case None => Some(ValidateResult(Null, Thrown(SyntaxError), true))
      case Some(profile) =>
        if profile.Null? || profile.Undefined? then Some(ValidateResult(Null, Thrown(TypeError), true))
        else Some(ValidateResult(Prop(profile, "_id"), Profile(profile), false))
  }

  // ----- properties -----

  /** Falsy user data issues exactly the token of a new profile. */
  lemma FalsyDataIsFakeUser(c: Codec, userData: Value)
    requires !Truthy(userData)
    ensures Issue(c, false, userData) == Issue(c, false, Obj(NewProfile()))
  {
  }

  /**
   * Outside production a token issued for truthy data validates to the
   * data's `_id`, and to the projected profile without its undefined fields.
   * (Falsy data is the fake user's case, by `FalsyDataIsFakeUser`.)
   */
  lemma ValidateIssued(c: Codec, data: Value)
    requires Sound(c) && Truthy(data) && JsonReady(Projection(data))
    ensures Validate(c, false, Issue(c, false, data).value)
            == Some(ValidateResult(Prop(data, "_id"), Profile(Obj(Defined(Projection(data)))), false))
  {
    var json := c.stringify(Obj(Projection(data)));
    var bytes := c.utf8Encode(json);
    var token := Base64.Encode(bytes);
    assert Issue(c, false, data) == Some(token);
    assert c.fromBase64(token) == bytes;
    assert c.utf8Decode(bytes) == json;
    var profile := Obj(Defined(Projection(data)));
    assert c.parse(json) == Some(profile);
    assert Prop(profile, "_id") == Prop(data, "_id") by {
      assert "_id" in Projection(data);
    }
  }

  /** Every field of the fake user's projection is a plain value or undefined. */
  lemma FakeUserJsonReady()
    ensures JsonReady(Projection(Obj(DefaultFakeUser)))
  {
    var p := Projection(Obj(DefaultFakeUser));
    forall k | k in p ensures p[k] == Undefined || Plain(p[k]) {
      assert p[k] == Get(DefaultFakeUser, k);
      if k in DefaultFakeUser {
        assert Plain(DefaultFakeUser[k]);
      }
    }
  }

  /** The default fake user survives the round trip: its id is what validation reports. */
  lemma FakeUserRoundTrip(c: Codec)
    requires Sound(c)
    ensures Validate(c, false, Issue(c, false, Null).value).value.userId == Str("67345206787c5d2b9be61c37")
  {
    var data := Obj(DefaultFakeUser);
    FakeUserFacts(c);
    ValidateIssued(c, data);
  }

  /** What the round trip needs of the fake user, apart from the codec: falsy data issues its token. */
  lemma FakeUserFacts(c: Codec)
    ensures JsonReady(Projection(Obj(DefaultFakeUser)))
    ensures Prop(Obj(DefaultFakeUser), "_id") == Str("67345206787c5d2b9be61c37")
    ensures Issue(c, false, Null) == Issue(c, false, Obj(DefaultFakeUser))
  {
    FakeUserJsonReady();
    assert DefaultFakeUser["_id"] == Str("67345206787c5d2b9be61c37");
  }
}
