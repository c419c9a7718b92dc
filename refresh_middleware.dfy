/** src/middlewares/validateRefreshToken.ts and parseRefreshToken.middleware.ts:
    the refresh token is read from the `refreshToken` cookie only, verified as
    HS256 under REFRESH_TOKEN_SECRET, and (on the refresh route) checked
    against the refresh-token table. */
module RefreshMiddleware {
  import opened Common
  import opened Numbers
  import opened Entities
  import opened Jwt

  const REFRESH_COOKIE: string := "refreshToken"
  const ACCESS_COOKIE: string := "accessToken"

  /** `Number(payload.id)`: NaN (`None`) when the claim is missing. */
  function IdClaim(p: Payload): Option<nat> {
    match p.id
    case Some(s) => ParseNumber(s)
    case None => None
  }

  /** Some row has both the token's id and the token's owner. */
  ghost predicate HasMatchingRecord(records: map<nat, RefreshTokenRecord>, p: Payload) {
    exists r :: r in records.Values && IdClaim(p) == Some(r.id) && ParseNumber(p.sub) == Some(r.userId)
  }

  /** `isRevoked`: looks up the row by the token's id and owner id; the token
      is revoked when no such row exists, and also when the lookup throws
      (`lookupFails`), so the check fails closed. */
  function IsRevoked(records: map<nat, RefreshTokenRecord>, p: Payload, lookupFails: bool): (revoked: bool)
    requires WellKeyed(records)
    ensures revoked <==> lookupFails || !HasMatchingRecord(records, p)
  {
    if lookupFails then true
    else
      match IdClaim(p)
      case None => true
      case Some(i) =>
        if i in records && ParseNumber(p.sub) == Some(records[i].userId) then
          assert records[i] in records.Values;
          false
        else true
  }

  /** A row with the token's id but another owner does not save the token. */
  lemma ForeignOwnerIsRevoked(records: map<nat, RefreshTokenRecord>, p: Payload)
    requires WellKeyed(records)
    requires IdClaim(p).Some? && IdClaim(p).value in records
    requires ParseNumber(p.sub) != Some(records[IdClaim(p).value].userId)
    ensures IsRevoked(records, p, false)
  {
  }

  /** A token whose row has been deleted is revoked. */
  lemma DeletedRowIsRevoked(records: map<nat, RefreshTokenRecord>, p: Payload, i: nat)
    requires WellKeyed(records)
    requires IdClaim(p) == Some(i) && i !in records
    ensures IsRevoked(records, p, false)
  {
  }

  /** The claims minted for a row (its id and its owner, spelled by
      `String`) pass the revocation check while the row exists. */
  lemma {:induction false} IssuedClaimsAreLive(records: map<nat, RefreshTokenRecord>, rec: RefreshTokenRecord, role: string)
    requires WellKeyed(records)
    requires rec.id in records && records[rec.id] == rec
    ensures !IsRevoked(records, Payload(NatToString(rec.userId), role, Some(NatToString(rec.id))), false)
  {
    NumberOfString(rec.id);
    NumberOfString(rec.userId);
  }

  /** `parseRefreshToken`: the token of the `refreshToken` cookie, verified as
      HS256 under the refresh secret; no revocation check. */
  function ParseRefreshToken(c: Config, cookies: map<string, Token>): (r: Result<Payload, Error>)
    ensures r.Ok? <==> REFRESH_COOKIE in cookies
                        && cookies[REFRESH_COOKIE].alg == HS256
                        && cookies[REFRESH_COOKIE].key == HmacSecret(c.refreshTokenSecret)
    ensures r.Ok? ==> r.value == cookies[REFRESH_COOKIE].payload
    ensures REFRESH_COOKIE !in cookies ==> r == Err(Unauthorized(CredentialsRequired))
  {
    if REFRESH_COOKIE !in cookies then Err(Unauthorized(CredentialsRequired))
    else Verify(cookies[REFRESH_COOKIE], HmacKey(c.refreshTokenSecret), [HS256])
  }

  /** `validateRefreshToken`: `parseRefreshToken` followed by `isRevoked`. It
      accepts exactly the HS256 refresh-cookie tokens under the refresh
      secret whose row (same id, same owner) is in the table and was read
      without error. */
  function ValidateRefreshToken(c: Config, cookies: map<string, Token>,
                                records: map<nat, RefreshTokenRecord>, lookupFails: bool): (r: Result<Payload, Error>)
    requires WellKeyed(records)
    ensures r.Ok? <==> ParseRefreshToken(c, cookies).Ok? && !lookupFails
                        && HasMatchingRecord(records, ParseRefreshToken(c, cookies).value)
    ensures r.Ok? ==> r == ParseRefreshToken(c, cookies)
    ensures ParseRefreshToken(c, cookies).Ok? && r.Err? ==> r.error == Unauthorized(RevokedToken)
  {
    match ParseRefreshToken(c, cookies)
    case Err(e) => Err(e)
    case Ok(p) => if IsRevoked(records, p, lookupFails) then Err(Unauthorized(RevokedToken)) else Ok(p)
  }
}
