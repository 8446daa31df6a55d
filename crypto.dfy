/** The foreign cryptography the server calls: bcrypt password hashing and JSON Web Tokens.
    Each is a record of functions the model cannot look into; what the server relies on is
    stated as a soundness predicate over the record, and the lemmas that need it take it as a
    precondition. */
module Crypto {
  import opened Wrappers

  /** The claims signed into a session token. */
  datatype Claims = Claims(id: nat, email: string, name: string)

  /** bcrypt: `hash(password, salt)` with a freshly generated salt, and `compare(candidate,
      stored)`. */
  datatype Hasher = Hasher(hash: (string, nat) -> string, compare: (string, string) -> bool)

  /** A password matches every hash made from it, and no other password matches that hash. */
  ghost predicate SoundHasher(h: Hasher) {
    && (forall p, salt :: h.compare(p, h.hash(p, salt)))
    && (forall p, q, salt :: p != q ==> !h.compare(q, h.hash(p, salt)))
  }

  /** jsonwebtoken: `sign(claims, secret, expiresIn)`, and `verify(token, secret)`, where
      `None` stands for the exception it throws on a bad, forged or expired token. */
  datatype Signer = Signer(sign: (Claims, string, string) -> string, verify: (string, string) -> Option<Claims>)

  /** A token signed with a secret verifies under that secret to the signed claims; tokens
      are non-empty and free of spaces, as compact JSON Web Tokens are. */
  ghost predicate SoundSigner(j: Signer) {
    && (forall c, secret, expiry :: j.verify(j.sign(c, secret, expiry), secret) == Some(c))
    && (forall c, secret, expiry :: j.sign(c, secret, expiry) != [] && ' ' !in j.sign(c, secret, expiry))
  }
}
