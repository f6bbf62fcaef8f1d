/**
 * Salted password hashing (`hash_password`, `hashes_eq` in src/lib.rs). The
 * SHA3-256 digest is a parameter: the model only relies on it being a
 * function of the bytes it is given.
 */
module Credentials {

  newtype byte = x: int | 0 <= x < 256

  /** A message digest such as SHA3-256. */
  type Digest = seq<byte> -> seq<byte>

  /** The digest of the password followed by the salt. */
  function HashPassword(digest: Digest, password: seq<byte>, salt: seq<byte>): (h: seq<byte>)
    ensures h == digest(password + salt)
  {
    digest(password + salt)
  }

  /** Whether the password and salt hash to the stored hash. */
  function HashesEq(digest: Digest, password: seq<byte>, salt: seq<byte>, hash: seq<byte>): (eq: bool)
    ensures eq <==> digest(password + salt) == hash
  {
    HashPassword(digest, password, salt) == hash
  }

  /** A password is always accepted against the hash computed from it with the same salt. */
  lemma HashesEqAcceptsOwnHash(digest: Digest, password: seq<byte>, salt: seq<byte>)
    ensures HashesEq(digest, password, salt, HashPassword(digest, password, salt))
  {
  }

  /** The hash depends only on the concatenation of password and salt. */
  lemma HashDependsOnlyOnConcatenation(digest: Digest, p1: seq<byte>, s1: seq<byte>, p2: seq<byte>, s2: seq<byte>)
    requires p1 + s1 == p2 + s2
    ensures HashPassword(digest, p1, s1) == HashPassword(digest, p2, s2)
    ensures forall h :: HashesEq(digest, p1, s1, h) <==> HashesEq(digest, p2, s2, h)
  {
  }
}
