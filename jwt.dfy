/**
 * The validity window both signed-token kinds are issued with
 * (`notBefore: "500ms"`, `expiresIn: "1d"`), in milliseconds of the signer's clock.
 */
module Jwt {
  const NotBeforeMillis := 500
  const ExpiresInMillis := 86_400_000

  /** A token signed at `signedAt` is neither early nor expired at `now`. */
  predicate InWindow(signedAt: int, now: int) {
    signedAt + NotBeforeMillis <= now < signedAt + ExpiresInMillis
  }

  /**
   * The payload members `sign` writes itself under the issue options both
   * token kinds use: `iat` (timestamps are on), `exp` (`expiresIn`), `nbf`
   * (`notBefore`), `iss` (`issuer`) and `aud` (`audience`).
   */
  const SignedMembers: set<string> := {"iat", "exp", "nbf", "iss", "aud"}

  /** The members one of those options would write. */
  const OptionMembers: set<string> := {"exp", "nbf", "iss", "aud"}

  /**
   * The jsonwebtoken library's `sign`, given those options, throws on a
   * payload that already holds a member one of the options would write.
   */
  predicate SignAccepts(members: set<string>) {
    members !! OptionMembers
  }
}
