/** The two cryptographic libraries the backend calls, as opaque oracles.
    bcrypt (`bcryptjs`) hashes and compares passwords; `jsonwebtoken` signs
    and verifies JSON Web Tokens (RFC 7519). The model never looks inside
    them: an oracle is a value holding the functions, and what the
    libraries guarantee is a predicate (`SoundHasher`, `SoundJwt`) that the
    lemmas needing it take as a precondition. */
module Crypto {
  import opened Common

  /** `bcrypt.hash(plaintext, salt)` and `bcrypt.compare(plaintext, stored)`;
      `compare` yields `None` when bcrypt throws (malformed arguments). */
  datatype Hasher = Hasher(
    hash: (string, string) -> string,
    compare: (string, string) -> Option<bool>)

  /** What the user model relies on: a hash never equals its plaintext, and
      comparing a plaintext with its own hash succeeds and matches. */
  ghost predicate SoundHasher(h: Hasher) {
    forall p, salt :: h.hash(p, salt) != p && h.compare(p, h.hash(p, salt)) == Some(true)
  }

  /** `expiresIn: '24h'`, in seconds: the `exp` claim is `iat` plus this. */
  const TokenLifetime: int := 24 * 60 * 60

  /** The result of `jwt.verify(token, secret)` at a given time: the decoded
      `userId` claim (absent when the payload has none), or the two kinds of
      exception it throws (`TokenExpiredError`; `JsonWebTokenError` for a bad
      signature or a malformed token). */
  datatype Verification = Verified(userId: Option<nat>) | Expired | Malformed

  /** `jwt.sign({ userId }, JWT_SECRET, { expiresIn: '24h' })` issued at
      second `iat`, and `jwt.verify` at second `now`, both with the one
      process-wide secret. */
  datatype Jwt = Jwt(
    sign: (nat, int) -> string,
    verify: (string, int) -> Verification)

  /** Section 4.1.4 of RFC 7519 as `jsonwebtoken` applies it: a token it
      signed is accepted, with its subject, strictly before `exp` and
      rejected as expired from `exp` on; a signed token is never empty. */
  ghost predicate SoundJwt(j: Jwt) {
    && (forall u: nat, iat: int :: j.sign(u, iat) != "")
    && (forall u: nat, iat: int, now: int ::
          j.verify(j.sign(u, iat), now)
            == if now < iat + TokenLifetime then Verified(Some(u)) else Expired)
  }

  /** A token issued for `u` verifies to `u` for exactly 24 hours. */
  lemma IssuedTokenLifetime(j: Jwt, u: nat, iat: int, now: int)
    requires SoundJwt(j)
    ensures j.verify(j.sign(u, iat), now).Verified? <==> now < iat + TokenLifetime
    ensures iat <= now < iat + TokenLifetime ==> j.verify(j.sign(u, iat), now) == Verified(Some(u))
  {
  }
}
