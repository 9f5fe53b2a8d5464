/**
 * The cryptographic collaborators the controllers call but do not implement:
 * bcrypt, jsonwebtoken and the Google ID-token verifier. Each is a parameter of
 * the model; the handful of facts the controllers rely on are predicates that
 * lemmas take as hypotheses.
 */
module Crypto {
  import opened Wrappers

  /** bcrypt as seen by the controllers: `bcrypt.hash(s, cost)` and `bcrypt.compare(s, digest)`. */
  datatype Bcrypt = Bcrypt(hash: string -> string, compare: (string, string) -> bool)

  /** A digest of a secret matches that secret. */
  ghost predicate Sound(b: Bcrypt)
  {
    forall s :: b.compare(s, b.hash(s))
  }

  /** Length of every bcrypt digest string ("$2a$" + cost + salt + hash). */
  const DigestLength: nat := 60

  /**
   * bcrypt digests have one fixed length, and bcryptjs answers `false`
   * without hashing when the stored string has any other length.
   */
  ghost predicate DigestShaped(b: Bcrypt)
  {
    && (forall s :: |b.hash(s)| == DigestLength)
    && (forall s, d :: |d| != DigestLength ==> !b.compare(s, d))
  }

  /** jsonwebtoken with the process-wide secret: `jwt.sign({ id }, ...)` and `jwt.verify(token, ...)`. */
  datatype Jwt = Jwt(sign: nat -> string, verify: string -> Option<nat>)

  /** A token signed for an id verifies to that id. */
  ghost predicate SoundJwt(j: Jwt)
  {
    forall id: nat :: j.verify(j.sign(id)) == Some(id)
  }

  /** The claims the Google login reads from a verified ID token. */
  datatype Payload = Payload(email: string, name: string)

  /** Everything the handlers take from the environment; `google` is `verifyIdToken(...).getPayload()`. */
  datatype Env = Env(bcrypt: Bcrypt, jwt: Jwt, google: string -> Option<Payload>)
}
