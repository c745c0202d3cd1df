# sara.recv credential and session core, in Dafny

This project models the credential and session machinery of the sara.recv
identity service, and proves properties of the model:

- **Ephemeral session stores.** One-time codes live at
  `code:<type>:<sessionId>@<code>` and WebAuthn challenges at
  `passkey:<type>:<sessionId>`. Both sit in a TTL cache the process shares.
- **Brute-force guard.** A counter per `(type, sha256(target))`.
- **Numeric code generator.**
- **Three token kinds:**
  - the guarded ES256 token, `JWT|HMAC(jti)`
  - the HS256 service token with its `sara` header
  - the unsigned base64 development token
- **Passkey record conversion.**
- **Request gates:** the role gate, the Authorization parser with its SYS
  check and token-freshness check, and the origin gate.
- **Role-list edits** of the user controller and the admin routes, with the
  `saveData` stamp they share.

The cache is a class: a map from key to `(value, expiresAt)` plus a clock
in seconds. The session stores, the guard and `saveData` are methods that
change it. Each store also has a pure lookup over `(entries, now)`, and the
lemmas are stated against that lookup.

Some inputs come from outside the code: randomness (nanoid ids, ULIDs,
`randomInt` draws), the clock, and what the save and the database return.
They are parameters.

Signing, verification, HMAC, SHA-256, JSON, UTF-8 and the runtime's base64
decoder are function-valued parameters. For each, a ghost predicate states
what is assumed of it: `XaraToken.Sound`, `SaraToken.Sound`,
`TestToken.Sound` and `Bfap.CollisionFree`. The main assumption is that a
token verifies to what was signed, inside its validity window.

Where the code and its documentation disagree, the model follows the code:

- The guard's cache key is `bfap_<type>:<hash>`, with an underscore.
- The guard admits `maxRetry + 1` calls in a window before it blocks. It
  blocks only once the stored counter exceeds `maxRetry`.
- `randomInt(0, 10^n - 1)` excludes its upper bound, so the all-nines code
  is never produced.
- The guarded token has no revocation ledger and no revision counter.
- The session stores export only `createOne` and `getOne`. There is no
  `deleteOne`: removal goes through the handle that `getOne` and
  `createOne` return.

## Model

| member | source | states |
|---|---|---|
| Cache.TtlCache.Get | src/utils/code_session.js:52-56 | a key reads as its value while alive and as undefined once absent or expired |
| Cache.TtlCache.Set | src/utils/code_session.js:29 | the entry is replaced and lives `ttl` seconds from now; it reads back while `ttl > 0` |
| Cache.TtlCache.Del | src/utils/code_session.js:30-32 | exactly that key is removed and then reads as absent |
| Cache.TtlCache.constructor | src/utils/code_session.js:29-32 | a fresh cache holds nothing at its starting time |
| Cache.TtlCache.Tick | src/utils/code_session.js:52-54 | time passes without touching the entries; expiry is by the clock alone |
| Text.Split | src/middlewares/auth.js:46 | at least one piece, and no piece holds the separator |
| Text.SplitLimit | src/utils/xara_token.js:73 | the first `limit` pieces of the full split, or all of them when there are fewer |
| Text.JoinSplit | src/middlewares/auth.js:46 | joining the pieces of a split gives the text back |
| Text.SplitJoin | src/utils/xara_token.js:60-73 | splitting a join of separator-free pieces gives the pieces back |
| Text.SplitAfterFirst | src/utils/xara_token.js:73 | a split cuts at the first separator and splits the rest on its own |
| Text.SplitSingle | src/utils/xara_token.js:73 | a split gives one piece exactly when the separator does not occur |
| Text.CutAtFirst | src/middlewares/auth.js:46 | two texts cut at their first separator agree exactly when both halves do |
| Text.OccurrencesAppend | src/utils/code_session.js:11 | delimiters of a concatenation add up |
| Text.PadStartZeros | src/utils/native.js:38 | the padded text is `width` long, zeros followed by the original, unless it was already long enough |
| Text.ValueOfDecimal | src/utils/native.js:37 | the decimal rendering of a number reads back as that number |
| Text.ValueOfLeadingZeros | src/utils/native.js:38 | leading zeros do not change the value |
| Text.ValueOfNines | src/utils/native.js:34 | `length` nines is `10^length - 1` |
| Base64.GroupRoundTrip | src/utils/test_token.js:49-78 | three bytes survive encoding and decoding of their group |
| Base64.TailRoundTrip | src/utils/test_token.js:49-78 | a one- or two-byte tail survives its padded group |
| Base64.GroupCanonical | src/utils/test_token.js:75-77 | a group the decoder accepts is the encoding of what it decodes to |
| Base64.TailCanonical | src/utils/test_token.js:75-77 | a padded group the decoder accepts is the encoding of what it decodes to |
| CodeSession.CreatedKeyDelimiters | src/utils/code_session.js:10-12 | a key built from delimiter-free parts holds exactly two `:` and one `@` |
| CodeSession.LookupKeyDelimiters | src/utils/code_session.js:10-12 | a key with only two `:` and one `@` has no `:` in its type and no `@` in its session id |
| PasskeySession.DelimiterCount | src/utils/passkey_session.js:9-10 | a key holds the `:` of its parts plus its own two |
| CodeSession.SessionCodeName | src/utils/code_session.js:10-12 | the key `code:<type>:<id>@<code>`: it starts with `code:`, ends with the code, and is seven characters longer than its parts; `SessionCodeNameInjective` and `DelimiterCounts` show that it names one triple only |
| CodeSession.Lookup | src/utils/code_session.js:48-65 | a hit exactly when the key of the triple is present and unexpired; the hit carries that entry's metadata and the key as handle |
| CodeSession.CreateOne | src/utils/code_session.js:22-39 | the code is `generateRandomCode` of the draw; metadata is stored under the key of the nanoid id and that code for `ttl` seconds; a refused code length throws and stores nothing |
| CodeSession.GetOne | src/utils/code_session.js:48-65 | reading is the lookup on the current cache and changes nothing |
| CodeSession.Consume | src/utils/code_session.js:30-32 | the handle's entry alone is removed |
| CodeSession.SessionCodeNameInjective | src/utils/code_session.js:10-12 | for a key built from a tag, a nanoid id and a digit code, any triple that yields the same key is that triple |
| CodeSession.DelimiterCounts | src/utils/code_session.js:10-12 | the number of `:` and `@` in a key is its parts' count plus the key's own delimiters |
| CodeSession.LookupAfterCreate | src/utils/code_session.js:22-65 | after a create, the same triple before expiry finds the stored metadata |
| CodeSession.CreateInvisibleToOthers | src/utils/code_session.js:48-54 | a create leaves every other triple's lookup as it was, so a wrong type, id or code is a plain miss |
| CodeSession.ExpiredIsMiss | src/utils/code_session.js:52-54 | an entry past its TTL reads as null |
| CodeSession.ConsumeRemovesOnlyIt | src/utils/code_session.js:30-32 | after consuming, the same triple misses and every other well-formed triple reads as before |
| PasskeySession.SessionCodeName | src/utils/passkey_session.js:9-10 | the key `passkey:<type>:<id>`: it starts with `passkey:` and ends with the id; `SessionCodeNameInjective` and `DisjointFromCodeSessions` show that it names one pair, apart from every code-session key |
| PasskeySession.Lookup | src/utils/passkey_session.js:40-55 | a hit exactly when the key is present and unexpired, with that entry's metadata and the key as handle |
| PasskeySession.CreateOne | src/utils/passkey_session.js:19-32 | metadata is stored under `passkey:<type>:<id>` for `ttl` seconds and that id is returned |
| PasskeySession.GetOne | src/utils/passkey_session.js:40-55 | reading is the lookup on the current cache and changes nothing |
| PasskeySession.Consume | src/utils/passkey_session.js:24-26 | the handle's entry alone is removed |
| PasskeySession.SessionCodeNameInjective | src/utils/passkey_session.js:9-10 | a key built from a tag and a nanoid id names only that pair |
| PasskeySession.DisjointFromCodeSessions | src/utils/passkey_session.js:9-10 | no passkey key equals any code-session key |
| PasskeySession.LookupAfterCreate | src/utils/passkey_session.js:19-55 | after a create, the same pair before expiry finds the stored metadata |
| PasskeySession.CreateInvisibleToOthers | src/utils/passkey_session.js:40-44 | a create leaves every other pair's lookup as it was |
| PasskeySession.ExpiredIsMiss | src/utils/passkey_session.js:42-44 | an absent or expired key reads as null |
| PasskeySession.ConsumeRemovesOnlyIt | src/utils/passkey_session.js:24-26 | after consuming, the pair misses and every other well-formed pair reads as before |
| Bfap.KeyName | src/utils/bfap.js:16-17 | the counter key `bfap_<type>:<hash>`: it starts with `bfap_` and ends with the digest; `KeysIndependent` shows that it names one (type, target) pair |
| Bfap.Step | src/utils/bfap.js:19-23 | a call is blocked exactly when the stored counter is non-zero and above `maxRetry`; a blocked call writes nothing, any other writes the counter plus one |
| Bfap.Inspect | src/utils/bfap.js:14-25 | the verdict is the step on the cached counter; blocked leaves the cache as it was; admitted writes the bumped counter with a fresh TTL under `bfap_<type>:<hash>` |
| Bfap.InspectRepeatedly | src/utils/bfap.js:14-25 | successive `Inspect` calls on one target with no live counter and a standing clock give exactly the verdicts of `Run` from 0; the counter ends at `min(calls, maxRetry + 1)` and no other entry changes |
| Bfap.RunOutcomes | src/utils/bfap.js:19-23 | in a run of calls within one window, call `i` is blocked exactly when the starting count plus `i` exceeds `maxRetry`; by `InspectRepeatedly` this holds of repeated `Inspect` calls |
| Bfap.Ceiling | src/utils/bfap.js:19-23 | from an empty cache the first `maxRetry + 1` calls pass and all later ones are blocked (of `Inspect` calls, through `InspectRepeatedly`) |
| Bfap.IpLoginAdmitsEleven | src/init/const.js:13-17 | with the `ip_login` budget, eleven calls pass and the twelfth is blocked (of `Inspect` calls, through `InspectRepeatedly`) |
| Bfap.BlockedStaysBlocked | src/utils/bfap.js:19-21 | once above the threshold, every further call in the window is blocked and the counter stays put (a blocked `Inspect` leaves the cache as it was) |
| Bfap.KeysIndependent | src/utils/bfap.js:16-17 | with a collision-free digest, two calls share a counter only for the same type and target |
| Bfap.InspectLeavesOthers | src/utils/bfap.js:22-23 | writing one counter leaves every other (type, target) counter unchanged |
| Native.PosixTimestamp | src/utils/native.js:12-14 | the result is the whole seconds of the millisecond time: `s*1000 <= ms < s*1000 + 1000` |
| Native.IsObjectPropExists | src/utils/native.js:24-26 | true exactly for an own property; false for one the object only inherits |
| Native.OwnPropertyIgnoresPrototype | src/utils/native.js:24-26 | the answer depends on the own properties alone |
| Native.CodeLengthBounds | src/utils/native.js:34-36 | length 1 gives `randomInt` a non-empty range, length 14 still fits its 2^48 span and length 15 no longer does |
| Native.GenerateRandomCode | src/utils/native.js:33-39 | for an accepted length the code has exactly that many characters, all digits, with the draw as value; otherwise the generator throws |
| Native.AllNinesNeverDrawn | src/utils/native.js:34-36 | the all-nines code is never produced |
| Native.CodeInjective | src/utils/native.js:33-39 | distinct draws give distinct codes |
| XaraToken.Issue | src/utils/xara_token.js:50-61 | the token splits back into the signed `{user, sub: user._id, jti}` and the HMAC of `jti` under the guard secret, whenever neither holds `\|` (which `Sound` guarantees) |
| XaraToken.Pieces | src/utils/xara_token.js:73 | the signed part never holds `\|`; the guard piece is present exactly when the token holds a `\|` |
| XaraToken.Validate | src/utils/xara_token.js:95-125 | a signed part that fails verification aborts; once it verifies, the token passes exactly when the guard is the HMAC of the verified `jti`, and then yields `sub` as user id and the signed profile; an aborted result has no user id and carries the error |
| XaraToken.Update | src/utils/xara_token.js:69-86 | throws exactly when the signed part fails verification |
| XaraToken.PiecesOfJoin | src/utils/xara_token.js:60-73 | splitting `a\|b` at most twice gives back `a` and `b` |
| XaraToken.ValidateIssued | src/utils/xara_token.js:50-125 | a token issued at `t` validates inside its window, to `user._id` and the profile |
| XaraToken.ExtraPiecesIgnored | src/utils/xara_token.js:104 | text after a second `\|` does not change the verdict |
| XaraToken.GuardIgnoredOnBadSignature | src/utils/xara_token.js:105-113 | a signed part that fails verification aborts the same way whatever guard follows |
| XaraToken.TamperedGuardRejected | src/utils/xara_token.js:109-113 | a guard other than the HMAC of the verified `jti` aborts |
| XaraToken.UpdateAsWritten | src/utils/xara_token.js:69-86 | as written, a token is returned only where the intended `Update` returns the same one |
| XaraToken.UpdateAsWrittenAlwaysThrows | src/utils/xara_token.js:74-83 | as written, `update` throws for every token, even a freshly issued one that `Update` re-signs |
| XaraToken.UpdateWithoutGuard | src/utils/xara_token.js:73-85 | a token with no `\|` updates to the re-signed part followed by `\|` and an empty guard |
| XaraToken.UpdateKeepsGuard | src/utils/xara_token.js:73-85 | the updated token carries the original guard piece unchanged |
| XaraToken.UpdateResigns | src/utils/xara_token.js:74-83 | the new signed part verifies to the old claims with the profile overlaid by the changes and `sub` and `jti` kept |
| XaraToken.ValidateUpdated | src/utils/xara_token.js:50-125 | issue, then update, then validate succeeds, giving the original subject and the merged profile |
| SaraToken.Issue | src/utils/sara_token.js:65-68 | under a sound signer, the token verifies throughout its window, against the same issuer and audience, to the payload `{user, sub: user._id}` |
| SaraToken.Issuer | src/utils/sara_token.js:29-55 | the configured issuer when set and non-empty, else the SHA-256 of the secret; the same value is used for issuing and for validating |
| SaraToken.Validate | src/utils/sara_token.js:77-102 | a token passes exactly when it verifies and its header says `sara.version` 1 and `sara.type` `auth`, and then yields the payload's `sub` and the payload; an aborted result has a null user id and carries the error |
| SaraToken.ValidateIssued | src/utils/sara_token.js:24-102 | a token issued at `t` validates inside its window, to `user._id` and its payload |
| SaraToken.OtherDeploymentRejects | src/utils/sara_token.js:28-56 | a token issued under another issuer or audience is refused |
| SaraToken.WrongTypeRejected | src/utils/sara_token.js:87-92 | a verified token without the `sara` version and type marks is refused |
| Base64.Encode | src/utils/test_token.js:50-52 | the encoding has four characters per started group of three bytes |
| Base64.DecodeEncode | src/utils/test_token.js:49-78 | decoding the encoding of any bytes gives them back |
| Base64.EncodeDecode | src/utils/test_token.js:75-77 | every text the strict decoder accepts is the encoding of what it decodes to |
| Base64.StrictAgreement | src/utils/test_token.js:75-77 | a decoder gives back the bytes of every encoding exactly when it agrees with strict decoding wherever that succeeds |
| TestToken.NewProfile | src/utils/test_token.js:21-23 | the new profile is the fake user: JSON-ready, with its fixed id and no roles |
| TestToken.Projection | src/utils/test_token.js:39-47 | exactly the seven profile fields, each read from the data |
| TestToken.Issue | src/utils/test_token.js:32-53 | throws exactly in production |
| TestToken.Validate | src/utils/test_token.js:62-90 | throws exactly in production; text that does not parse aborts with a syntax error; parsed text aborts exactly when it is null or undefined, and otherwise yields that profile and its `_id` as user id; an aborted result has a null user id |
| TestToken.FalsyDataIsFakeUser | src/utils/test_token.js:37 | falsy data issues the token of the default fake user |
| TestToken.ValidateIssued | src/utils/test_token.js:32-90 | a token issued for truthy data validates to the data's `_id` and to the projection without its undefined fields |
| TestToken.FakeUserRoundTrip | src/utils/test_token.js:7-37 | the fake user's token validates to its fixed id |
| Passkey.ToPasskeyBson | src/utils/passkey.js:19-27 | the record keeps the given label, and reading it back gives the credential |
| Passkey.FromPasskeyBson | src/utils/passkey.js:34-41 | the credential takes `_id`, `public_key`, `counter` and `transports` from the record and nothing else; `RecordRoundTrip` and `LabelDropped` make it the inverse of `ToPasskeyBson` up to the label |
| Passkey.RecordRoundTrip | src/utils/passkey.js:19-41 | storing the credential read from a record, under its label, gives the record again |
| Passkey.LabelDropped | src/utils/passkey.js:34-41 | reading a record back ignores its label |
| Access.Decide | src/middlewares/access.js:3-18 | 401 exactly when the SYS shortcut does not apply and there is no user with a role list; 403 exactly when there is one, a role is asked for and the list lacks it; through otherwise |
| Access.SysShortcutOnlyForAdmin | src/middlewares/access.js:4 | for any role but `admin`, a SYS request is judged like any other |
| Access.NoRoleAdmitsAnyUser | src/middlewares/access.js:13-17 | with no role asked for, any user with a role list passes |
| Access.GrantingRoleAdmits | src/middlewares/access.js:13-17 | a user refused with 403 passes once the role is appended |
| Auth.MethodNamed | src/middlewares/auth.js:10-56 | `SARA` and `SYS` and nothing else name a method |
| Auth.ParseAuthorization | src/middlewares/auth.js:41-52 | a parsed method and secret hold no space |
| Auth.Route | src/middlewares/auth.js:41-59 | the request is untouched exactly when the header does not parse; a dispatched method is one of the two |
| Auth.SysAuthenticated | src/middlewares/auth.js:32-36 | for a client address that is a string, an unset address or secret setting never authenticates |
| Auth.ParseComplete | src/middlewares/auth.js:46-52 | a parsed header is exactly method, one space, secret |
| Auth.ParseSound | src/middlewares/auth.js:46-52 | any method and secret without spaces are parsed back from `method secret` |
| Auth.CompletionAsWritten | src/middlewares/auth.js:57-59 | as written, a dispatched request is left pending exactly when it goes to the SARA handler, whose `validateAuthToken` is not exported |
| Auth.SaraHangsAsWritten | src/middlewares/auth.js:6-20 | as written, every `SARA <token>` header reaches the SARA handler and the request never reaches `next()`, while a SYS request does |
| Auth.SpaceInSecretUntouched | src/middlewares/auth.js:46-50 | a secret with a space leaves the request untouched |
| Auth.SysRequest | src/middlewares/auth.js:32-59 | `SYS <secret>` dispatches to SYS, which passes exactly on both configured values |
| Auth.Refresh | src/middlewares/auth.js:12-26 | no session gives no profile; a stamp is written only for a refetched stored user, with that user's `updated_at` |
| Auth.SaraRefresh | src/middlewares/auth.js:17-26 | the cache gains at most that one stamp, for 3600 seconds |
| Auth.FreshTokenKept | src/middlewares/auth.js:22-23 | a live stamp equal to the token's `updated_at` keeps the token's profile and writes nothing |
| Auth.MissingStampRefetches | src/middlewares/auth.js:12-26 | a token with an `updated_at` but no live stamp for its user refetches the stored user and stamps it, or ends with no profile for an unknown user |
| Auth.SavedUserRefetched | src/middlewares/auth.js:12-26 | after `saveData`, an older token within the hour gets the stored profile |
| Auth.RefetchThenHit | src/middlewares/auth.js:17-23 | after a refetch, a token carrying the stored `updated_at` is a hit for the hour |
| Origin.Decide | src/middleware/origin.js:15-30 | through exactly when the user agent is `sara_client/2.0` or the Origin equals `CORS_ORIGIN`; 403 otherwise |
| Origin.ClientIgnoresOrigin | src/middleware/origin.js:16-20 | the client's agent passes whatever Origin it sends |
| Origin.OthersJudgedByOrigin | src/middleware/origin.js:22-29 | for other agents only the Origin matters |
| Origin.MissingOriginRefused | src/middleware/origin.js:22-29 | another agent without an Origin is refused |
| UserStore.UserDoc.constructor | src/controllers/user.js:40 | a loaded document holds the stored fields, in memory and as persisted |
| UserStore.UserDoc.Save | src/utils/user.js:12 | a successful save persists the in-memory fields and returns them; a rejected one persists nothing |
| UserStore.TokenKey | src/utils/user.js:13 | the stamp key `TokenU:<id>`: `TokenU:` followed by the id itself, so `TokenKeyInjective` gives one key per user |
| UserStore.SaveData | src/utils/user.js:10-20 | `updated_at` becomes now; after a successful save the document is persisted and `TokenU:<id>` holds the new stamp for 3600 s; a rejected save writes no stamp |
| UserStore.TokenKeyInjective | src/utils/user.js:13 | two users never share a stamp key |
| Roles.IndexOf | src/controllers/user.js:74 | the first position holding the element |
| Roles.AddedRoles | src/controllers/user.js:45-52 | a non-array `roles` becomes `[role]`; a conflict exactly when the role is already in the array; otherwise the role is appended to the array |
| Roles.RemovedRoles | src/controllers/user.js:70-79 | gone exactly when `roles` is not an array holding the role; otherwise one element shorter |
| Roles.AddAppends | src/controllers/user.js:50-51 | existing roles keep their places and the new role is last |
| Roles.Splice | src/controllers/user.js:75 | splicing out one position keeps the prefix, moves the suffix up by one and removes one copy of that element |
| Roles.RemoveFirstOccurrence | src/controllers/user.js:74-75 | only the first occurrence goes: roles before it stay, roles after it move up, the multiset loses one copy |
| Roles.RemoveUndoesAdd | src/controllers/user.js:45-75 | removing a role just added gives back the original list |
| Roles.AddKeepsDistinct | src/controllers/user.js:45-52 | adding keeps a list free of duplicates |
| Roles.RemoveClearsDistinct | src/controllers/user.js:70-75 | on a duplicate-free list, removal leaves no copy of the role |
| UserController.AddRole | src/controllers/user.js:38-55 | 404 for no user; 409 with nothing changed or saved when the role is held; otherwise the list is the add edit, saved and stamped, then 201 |
| UserController.RemoveRole | src/controllers/user.js:63-82 | 404 for no user; 410 with nothing changed or saved when the role is absent or `roles` is not an array; otherwise the remove edit is saved and stamped, then 204 |
| AdminRoutes.FindById | src/routes/admin.js:54 | a document exactly for a defined, stored id |
| AdminRoutes.GetUserAsWritten | src/routes/admin.js:52-62 | as written, never sends a user: null when the query id finds nothing, 404 when it finds one |
| AdminRoutes.GetUser | src/routes/admin.js:48-63 | as intended, sends the stored user of the path id, or 404 |
| AdminRoutes.GetUserDiscrepancy | src/routes/admin.js:54-61 | a stored user asked for by path gets null as written and the user as intended |
| AdminRoutes.AddRoleAsWritten | src/routes/admin.js:105-126 | as written, a valid add never reaches the database and is never answered |
| AdminRoutes.RoleFieldMismatch | src/routes/admin.js:103-120 | a body the validator accepts adds `undefined` as the role |
| AdminRoutes.AddRole | src/routes/admin.js:100-127 | as intended, `role_name` is added and saved with 201, or 409 with nothing saved |
| AdminRoutes.RemoveRoleAsWritten | src/routes/admin.js:166-189 | as written, a valid removal never reaches the database and is never answered |
| AdminRoutes.RemoveRole | src/routes/admin.js:161-190 | as intended, the role is removed and saved with 204, or 410 with nothing saved |

## Left out

- Random draws (`crypto.randomInt`), ULIDs and nanoid ids are inputs. The model takes the drawn value and does not model the distribution. `CodeSession.IsNanoId` states only the alphabet of the ids.
- The cryptography is not modelled: ES256/HS256 signing and verification, expiry and not-before checks, HMAC-SHA256 and SHA-256. They appear only through the hypotheses `XaraToken.Sound`, `SaraToken.Sound` and `Bfap.CollisionFree`. Times are given in milliseconds for tokens and in seconds for the cache.
- XaraToken.Update: models the intended re-signing only. As written, the payload `verify` returns still holds `exp`, `nbf`, `iss` and `aud` from the first signature. The JWT library's `sign` refuses such a payload together with `expiresIn`, `notBefore`, `issuer` and `audience`, so `update` throws for every token and never returns one. Its two callers in src/routes/users.js (lines 110-111 and 288-289) do not reach it as written: each first calls `saveData(user)` with one argument (lines 107 and 285), which throws before `save`, the same defect as the admin-route Findings rows. `XaraToken.UpdateAsWritten` models that behaviour; see Findings.
- Cache.TtlCache.Set: a ttl of 0 means "never expires" in the cache library, while the model's entry expires at once. The modelled callers pass positive ttls (1 800, 3 600 and 86 400 seconds), so that case is not modelled. Neither is a `set` with no ttl, which falls back to the cache's default lifetime: the `_testing_code` writes at src/routes/users.js:200 and 360, src/routes/tokens.js:102, src/routes/user.js:90 and src/routes/register.js:57.
- XaraToken.Validate and SaraToken.Validate: a thrown error is modelled as an error tag, not as the error object.
- SaraToken.Validate: the payload of a verified token is returned as `{user, sub}`. The registered claims the library also hands back (`iat`, `exp`, `nbf`, `iss`, `aud`) are dropped.
- Auth.SysAuthenticated: the client address is taken to be a string. src/utils/ip_address.js is not part of this model. If it can yield undefined, an unset `SARA_SYSTEM_ADMIN_IP_ADDRESS` would match it (`undefined === undefined`), and the decision would then rest on the secret alone.
- SaraToken.Issue: the `point` URLs in the header come from configuration and are a parameter. Validation never reads them.
- TestToken: JSON, UTF-8 and the runtime's lenient base64 decoder are parameters. `TestToken.Sound` assumes the runtime decoder gives back the bytes of every encoding. By `Base64.StrictAgreement` that is the same as agreeing with the strict decoder `Base64.Decode` on the texts it accepts. What the lenient decoder does with other texts is not modelled, nor is JSON object key order.
- CodeSession.GetOne and PasskeySession.GetOne return the metadata next to the handle rather than spreading its fields into one object together with `deleteIt`.
- Auth: the module imports `issueAuthToken` and `validateAuthToken`, which src/utils/sara_token.js does not export. As written, the call at src/middlewares/auth.js:20 throws, so the asynchronous SARA handler rejects. The `.catch(console.error)` at line 59 swallows the rejection and `next()` is never called, so every request with `Authorization: SARA <token>` hangs (`Auth.SaraHangsAsWritten`; see Findings). `Auth.Refresh` and `Auth.SaraRefresh` model the intended check instead, on the verified payload `{user, sub}` (`SaraToken.Claims`) that a validation yields.
- Auth: the SARA handler's `res` (not in scope there) and the `Sara-Issue` response header are not modelled.
- Auth: the `in` test also admits names inherited from `Object.prototype`. Dispatch is over the two own keys only.
- Auth.Refresh: a subject that is not a non-empty string is treated as absent, which skips the freshness check. Strict equality between the stamp and `updated_at` is value equality on the model's integers.
- Native.GenerateRandomCode: `Date`, `Math.floor` on floating point and `crypto.randomInt` itself are not modelled. `PosixTimestamp` takes integer milliseconds.
- Concurrency is not modelled: the get-then-delete race between two readers of one session, and the interleaving of asynchronous handlers. The model is sequential.
- Mongoose is not modelled: schemas, `findById`, and documents beyond the `roles`/`updated_at` fields. The passkey sub-schema names its fields `id`/`publicKey`, while the conversion emits `_id`/`public_key`; that mismatch is not followed further.
- The login, register, token, profile and users routes and controllers, mail sending, configuration loading and startup are not part of this model.

## Findings

| source | as written | input that shows it | evidently intended | confidence | as-written member | corrected member |
|---|---|---|---|---|---|---|
| src/routes/admin.js:122 | `saveData` is called with the document as its only argument. The document lands in the context slot, so the call throws before `save` | any add of a new role to a stored user | save through `saveData(ctx, user)`, persist the role, answer 201 | high, not executed | AdminRoutes.AddRoleAsWritten | AdminRoutes.AddRole |
| src/routes/admin.js:185 | the same one-argument `saveData` call in the remove route | any removal of a held role | persist the removal, answer 204 | high, not executed | AdminRoutes.RemoveRoleAsWritten | AdminRoutes.RemoveRole |
| src/routes/admin.js:115-120 | the role is read from `req.body.role`, while the validator at line 103 demands `role_name` | body `{role_name: "editor"}` on a user whose roles are `[]` gives `[undefined]` | add `req.body.role_name` | high, not executed | AdminRoutes.RoleFieldMismatch | AdminRoutes.AddRole |
| src/routes/admin.js:54-61 | looks up `req.query.user_id` instead of the path parameter, and sends the result only when it is null | `GET /admin/users/<stored id>` with no query answers 200 with `null` | send the path id's user, 404 when absent | high, not executed | AdminRoutes.GetUserAsWritten | AdminRoutes.GetUser |
| src/utils/xara_token.js:81-83 | the verified payload, which still holds `exp`, `nbf`, `iss` and `aud`, is re-signed with options that set those members, which the JWT library refuses | any token `issue` produced, updated inside its window | re-sign only `{user, sub, jti}` with the merged profile, keeping the guard | medium, not executed | XaraToken.UpdateAsWrittenAlwaysThrows | XaraToken.Update |
| src/middlewares/auth.js:6-20 | the SARA handler calls `validateAuthToken`, which src/utils/sara_token.js does not export, so it throws; the rejection is only logged at line 59 and `next()` is never called | any request with header `Authorization: SARA abc` is left pending | validate the token, refresh a stale profile from the store, and continue with `next()` | high, not executed | Auth.SaraHangsAsWritten | Auth.Refresh |
