/**
 Abstract cryptographic primitives the account routes depend on.

 Password hashing (bcrypt) and token signing (JSON Web Tokens) are library
 calls whose internals are not part of this model. They are represented by
 total functions handed to every handler, so each route is a pure function of
 its inputs. The salt that `genSalt(12)` would draw is an explicit argument.
 */
module Crypto {

  /** A stored password hash. */
  type Digest = string

  /** A bcrypt salt, drawn at random by the library. */
  type Salt = string

  /** A signed session token. */
  type Token = string

  /** The identifier an account receives when it is first saved. */
  type UserId = nat

  /** Lifetime of the session token issued at sign-in: "5 days", in seconds. */
  const FiveDaysSeconds: nat := 5 * 24 * 60 * 60

  /** The expiry claim a token is signed with. */
  datatype Expiry = NoExpiry | ExpiresIn(seconds: nat)

  /** The three library operations: hash, compare and sign. */
  datatype Primitives = Primitives(
    hash: (string, Salt) -> Digest,
    compare: (string, Digest) -> bool,
    sign: (UserId, Expiry) -> Token)

  /** A password always matches a hash made from it, whatever the salt. */
  ghost predicate HashSound(p: Primitives)
  {
    forall pw: string, salt: Salt :: p.compare(pw, p.hash(pw, salt))
  }

  /** A hash matches no password other than the one it was made from
      (collision-freedom, idealised). */
  ghost predicate HashBinding(p: Primitives)
  {
    forall pw: string, other: string, salt: Salt ::
      p.compare(pw, p.hash(other, salt)) ==> pw == other
  }
}
