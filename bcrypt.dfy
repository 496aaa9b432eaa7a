/** The password hashing the service delegates to bcrypt, kept abstract:
    the hash and the comparison are functions supplied from outside. */
module Bcrypt {

  /** Work factor the service passes when hashing a new password. */
  const SaltRounds: nat := 10

  /** The random salt bcrypt draws for each new hash. */
  type Salt = nat

  /** `hash(password, rounds, salt)` is the stored string; `compare(password, stored)`
      says whether a login password matches a stored hash. */
  datatype Hasher = Hasher(hash: (string, nat, Salt) -> string, compare: (string, string) -> bool)

  /** The one property the service relies on: a password matches its own hash. */
  ghost predicate Agrees(h: Hasher) {
    forall pw, rounds, salt :: h.compare(pw, h.hash(pw, rounds, salt))
  }
}
