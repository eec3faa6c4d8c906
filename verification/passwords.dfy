/** The password hasher (bcrypt behind passlib's CryptContext), left abstract. */
module Passwords {

  /** get_password_hash and verify_password as two functions. */
  datatype Hasher = Hasher(hash: string -> string, verify: (string, string) -> bool)
  {
    /** The one property the service relies on: a password verifies against
        its own hash. */
    ghost predicate Sound()
    {
      forall p :: verify(p, hash(p))
    }
  }
}
