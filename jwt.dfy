/** Signed tokens as values. Signing (`jsonwebtoken.sign`) is not computed:
    a token carries its claims together with the algorithm, a reference to
    the key it was signed with, and the options given to `sign`. Verification
    (`express-jwt`) accepts a token exactly when its algorithm is allowed and
    it was signed with the key matching the verifier's key. */
module Jwt {
  import opened Common

  datatype Alg = RS256 | HS256

  /** Key material a token is signed with. */
  datatype SigningKey = RsaPrivateKey(pem: string) | HmacSecret(secret: string)

  /** Key material a verifier holds: the public half of an RSA key, or the
      shared HMAC secret. */
  datatype VerifyingKey = RsaPublicKeyOf(pem: string) | HmacKey(secret: string)

  /** The claims bag: `sub` and `role` always, `id` (the refresh-token record
      id, as a string) only in refresh tokens. */
  datatype Payload = Payload(sub: string, role: string, id: Option<string>)

  /** A signed token: its claims and the options it was signed with. */
  datatype Token = Token(
    payload: Payload,
    alg: Alg,
    key: SigningKey,
    issuer: string,
    expiresIn: string,
    jwtid: Option<string>)

  /** A signature made with `sk` checks out under `vk`. */
  predicate KeyPair(sk: SigningKey, vk: VerifyingKey) {
    match sk
    case RsaPrivateKey(pem) => vk == RsaPublicKeyOf(pem)
    case HmacSecret(secret) => vk == HmacKey(secret)
  }

  /** Signature and algorithm check of express-jwt: the claims are released
      only when the token's algorithm is among `algorithms` and its signature
      matches `vk`; otherwise the request is refused as an invalid token. */
  function Verify(t: Token, vk: VerifyingKey, algorithms: seq<Alg>): (r: Result<Payload, Error>)
    ensures r.Ok? <==> t.alg in algorithms && KeyPair(t.key, vk)
    ensures r.Ok? ==> r.value == t.payload
    ensures r.Err? ==> r.error == Unauthorized(InvalidToken)
  {
    if t.alg in algorithms && KeyPair(t.key, vk) then Ok(t.payload)
    else Err(Unauthorized(InvalidToken))
  }
}
