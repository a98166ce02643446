/**
 * The two cryptographic services the handlers call, as ideal functionalities:
 * bcrypt password hashing, and signing and verifying JSON Web Tokens with one
 * of two configured secrets.
 */
module Crypto {
  import opened Base

  /**
   * A bcrypt hash. The ideal hash remembers its preimage so that `compare`
   * can be stated; nothing in the model reads a password back out of a hash
   * except `Matches`.
   */
  datatype PasswordHash = Bcrypt(salt: nat, preimage: string)

  /** `bcrypt.compare(password, hash)`. */
  predicate Matches(password: string, h: PasswordHash)
  {
    h.preimage == password
  }

  /** `bcrypt.hash(password, salt)`: the hash matches that password and no other. */
  function Hash(password: string, salt: nat): (h: PasswordHash)
    ensures Matches(password, h)
    ensures forall other :: Matches(other, h) ==> other == password
  {
    Bcrypt(salt, password)
  }

  /** The secrets a token can be signed with: `JWT_PRIVATE_KEY` and `JWT_REFRESH_TOKEN_PRIVATE_KEY`. */
  datatype SigningKey = JwtPrivateKey | JwtRefreshTokenPrivateKey

  /** The claims the application puts in a token: the user id, and the role for session tokens. */
  datatype Payload = Payload(id: string, role: Option<string>)

  /** A token as a client presents it: one signed by the server, or any other text. */
  datatype Token = Signed(key: SigningKey, payload: Payload) | Forged(raw: string)

  /** `jwt.verify(token, key)`: the payload when the token carries a signature made with `key`. */
  function Verify(t: Token, key: SigningKey): (r: Option<Payload>)
    ensures r.Some? <==> t.Signed? && t.key == key
    ensures r.Some? ==> r.value == t.payload
  {
    match t
    case Signed(k, p) => if k == key then Some(p) else None
    case Forged(_) => None
  }

  /** `jwt.sign(payload, key)`: verifies under `key` to `payload`, and under no other key. */
  function Sign(key: SigningKey, payload: Payload): (t: Token)
    ensures Verify(t, key) == Some(payload)
    ensures forall other :: other != key ==> Verify(t, other) == None
  {
    Signed(key, payload)
  }
}
