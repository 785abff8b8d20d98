/** Failure-carrying datatypes and the symbolic cryptography shared by the model. */
module Common {

  datatype Option<+T> = None | Some(value: T)

  datatype Result<+T, +E> = Ok(value: T) | Err(error: E)

  /** A SHA-256 digest. As a constructor it is injective and cannot be inverted by
      the program, which is all the stores rely on. */
  datatype Digest = Sha256(preimage: string)

  /** An argon2id hash: salted, and checked only by presenting the password again. */
  datatype PasswordHash = Argon2id(password: string, salt: string)

  predicate PasswordMatches(hash: PasswordHash, password: string) {
    hash.password == password
  }
}
