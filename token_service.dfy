/** src/services/TokenService.ts: minting the two kinds of token (pure), and
    the refresh-token table that sessions are persisted to and deleted from. */
module TokenService {
  import opened Common
  import opened Numbers
  import opened Entities
  import opened Jwt

  /** Lifetime of a refresh-token record: one year of milliseconds. */
  const MS_IN_YEAR: int := 1000 * 60 * 60 * 24 * 365

  const SECRET_KEY_NOT_SET: string := "SECRET_KEY is not set"

  /** `Config.PRIVATE_KEY` is truthy: present and not the empty string. */
  predicate PrivateKeySet(c: Config) {
    c.privateKey.Some? && c.privateKey.value != ""
  }

  /** Signs `payload` as an access token with the RSA private key. Without a
      key it fails with 500 and mints nothing. The token verifies under the
      matching public key with RS256, and releases exactly `payload`. */
  function GenerateAccessToken(c: Config, payload: Payload): (r: Result<Token, Error>)
    ensures r.Ok? <==> PrivateKeySet(c)
    ensures r.Err? ==> r.error == HttpError(500, SECRET_KEY_NOT_SET)
    ensures r.Ok? ==> Verify(r.value, RsaPublicKeyOf(c.privateKey.value), [RS256]) == Ok(payload)
    ensures r.Ok? ==> r.value.issuer == c.tokenIssuer && r.value.expiresIn == c.accessTokenExpiresIn
  {
    if !PrivateKeySet(c) then Err(HttpError(500, SECRET_KEY_NOT_SET))
    else Ok(Token(payload, RS256, RsaPrivateKey(c.privateKey.value),
                  c.tokenIssuer, c.accessTokenExpiresIn, None))
  }

  /** `String(payload.id)`: the id claim itself, or "undefined" when absent. */
  function JwtId(payload: Payload): string {
    match payload.id
    case Some(s) => s
    case None => "undefined"
  }

  /** Signs `payload` as a refresh token with the shared HMAC secret; its
      unique-id field repeats the `id` claim. It verifies under that secret
      with HS256, and releases exactly `payload`. */
  function GenerateRefreshToken(c: Config, payload: Payload): (t: Token)
    ensures Verify(t, HmacKey(c.refreshTokenSecret), [HS256]) == Ok(payload)
    ensures t.issuer == c.tokenIssuer && t.expiresIn == c.refreshTokenExpiresIn
    ensures payload.id.Some? ==> t.jwtid == payload.id
  {
    Token(payload, HS256, HmacSecret(c.refreshTokenSecret),
          c.tokenIssuer, c.refreshTokenExpiresIn, Some(JwtId(payload)))
  }

  /** An access token is never accepted where a refresh token is expected. */
  lemma AccessTokenIsNoRefreshToken(c: Config, payload: Payload, secret: string)
    requires PrivateKeySet(c)
    ensures Verify(GenerateAccessToken(c, payload).value, HmacKey(secret), [HS256]).Err?
  {
  }

  /** A refresh token is never accepted where an access token is expected. */
  lemma RefreshTokenIsNoAccessToken(c: Config, payload: Payload, pem: string)
    ensures Verify(GenerateRefreshToken(c, payload), RsaPublicKeyOf(pem), [RS256]).Err?
  {
  }

  /** The table after deleting the row with primary key `id` (a NaN id
      matches no row). */
  function Without(records: map<nat, RefreshTokenRecord>, id: Option<nat>): (m: map<nat, RefreshTokenRecord>)
    ensures forall k :: k in m <==> k in records && Some(k) != id
    ensures forall k :: k in m ==> m[k] == records[k]
  {
    match id
    case Some(i) => records - {i}
    case None => records
  }

  /** Deleting twice is deleting once. */
  lemma DeleteIsIdempotent(records: map<nat, RefreshTokenRecord>, id: Option<nat>)
    ensures Without(Without(records, id), id) == Without(records, id)
  {
  }

  /** The service object: its configuration and the refresh-token table it
      owns through its repository, with the table's id sequence. */
  class TokenService {
    const config: Config
    var records: map<nat, RefreshTokenRecord>
    var nextId: nat

    ghost predicate Valid()
      reads this
    {
      WellKeyed(records) && forall k :: k in records ==> k < nextId
    }

    constructor (config: Config)
      ensures Valid() && this.config == config && records == map[]
    {
      this.config := config;
      records := map[];
      nextId := 1;
    }

    /** `persistRefreshToken(user)`: saves one new row owned by `user`, under a
        fresh id, expiring a year after `now`. `saved` is the repository's
        answer; when the save throws, the table is unchanged. */
    method PersistRefreshToken(user: User, now: int, saved: bool)
      returns (r: Result<RefreshTokenRecord, Error>)
      requires Valid()
      modifies this
      ensures Valid()
      ensures r.Ok? <==> saved
      ensures r.Ok? ==> r.value.id == old(nextId) && nextId == old(nextId) + 1
      ensures r.Ok? ==> r.value.id !in old(records) && r.value.userId == user.id
      ensures r.Ok? ==> r.value.expireAt == now + 31_536_000_000
      ensures r.Ok? ==> records == old(records)[r.value.id := r.value]
      ensures r.Err? ==> r.error == StoreError && unchanged(this)
    {
      if !saved {
        return Err(StoreError);
      }
      var rec := RefreshTokenRecord(nextId, user.id, now + MS_IN_YEAR);
      records := records[nextId := rec];
      nextId := nextId + 1;
      r := Ok(rec);
    }

    /** `deleteRefreshToken(id)`: removes the row with that id and nothing
        else; a missing row is not an error. `done` is the repository's
        answer; when the delete throws, the table is unchanged. */
    method DeleteRefreshToken(id: Option<nat>, done: bool) returns (r: Result<(), Error>)
      requires Valid()
      modifies this
      ensures Valid() && nextId == old(nextId)
      ensures r.Ok? <==> done
      ensures r.Ok? ==> records == Without(old(records), id)
      ensures r.Err? ==> r.error == StoreError && unchanged(this)
    {
      if !done {
        return Err(StoreError);
      }
      records := Without(records, id);
      r := Ok(());
    }
  }
}
