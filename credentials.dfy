/**
 * The two foreign capabilities behind the account rules: password hashing
 * (bcrypt in the source, utils/hash.go) and bearer tokens (JWT in the source,
 * utils/jwt.go). Both are modelled by their observable contract only.
 */
module Credentials {
  import opened Wrappers

  /**
   * A stand-in for `bcrypt.GenerateFromPassword`: an injective function of the
   * password whose output is never the password itself. Salting and cost are not modelled.
   */
  function Hash(password: string): (h: string)
    ensures h != password
  {
    "$2a$10$" + password
  }

  /** `bcrypt.CompareHashAndPassword(hash, password) == nil`. */
  predicate Verify(password: string, hash: string) {
    hash == Hash(password)
  }

  /** A password verifies against exactly its own hash. */
  lemma VerifyIffSamePassword(password: string, other: string)
    ensures Verify(password, Hash(other)) <==> password == other
  {
    if Verify(password, Hash(other)) {
      assert Hash(other)[7..] == other;
      assert Hash(password)[7..] == password;
    }
  }

  /**
   * What a `token` cookie can carry: a token this service signed, with the
   * id claim (`jti`, section 4.1.7 of RFC 7519) and its expiry, or any other text.
   * Forging a signature is not modelled.
   */
  datatype Credential = Signed(jti: string, expiresAt: nat) | Malformed(raw: string)

  /** The message `DecodeJWT` gives for every token it rejects. */
  const DecodeFailure := "failed to decode token"

  /** `EncodeJWT`: a signed token carrying `jti` that expires at `expiresAt`. */
  function Encode(jti: string, expiresAt: nat): Credential {
    Signed(jti, expiresAt)
  }

  /**
   * `DecodeJWT` at time `now`: the id claim of a signed, unexpired token,
   * and the decoder's message otherwise.
   */
  function Decode(c: Credential, now: nat): (r: Result<string, string>)
    ensures r.Ok? <==> c.Signed? && now < c.expiresAt
    ensures r.Ok? ==> c == Encode(r.value, c.expiresAt)
    ensures r.Err? ==> r.error == DecodeFailure
  {
    match c
    case Signed(jti, expiresAt) =>
      if now < expiresAt then Ok(jti) else Err(DecodeFailure)
    case Malformed(_) => Err(DecodeFailure)
  }

  /** Decoding an unexpired token gives back the id it was issued for. */
  lemma DecodeEncode(jti: string, expiresAt: nat, now: nat)
    requires now < expiresAt
    ensures Decode(Encode(jti, expiresAt), now) == Ok(jti)
  {
  }
}
