/** src/controllers/AuthController.ts: the four session flows (register,
    login, refresh, logout) and the two routes that put a refresh-token
    middleware in front of refresh and logout (src/routes/auth.ts). Each
    flow changes the user table, the refresh-token table and the client's
    cookie jar, and answers with a JSON reply or an error for `next`. */
module AuthController {
  import opened Common
  import opened Numbers
  import opened Entities
  import opened Jwt
  import opened RefreshMiddleware
  import TS = TokenService
  import US = UserService

  const LOGIN_FAILED: string := "Email or Password does not match!"
  const USER_NOT_FOUND: string := "User with the token could not be found!"

  /** Cookie lifetimes in milliseconds: one hour and 365 days. */
  const ACCESS_MAX_AGE: nat := 1000 * 60 * 60
  const REFRESH_MAX_AGE: nat := 1000 * 60 * 60 * 24 * 365

  /** A cookie as `res.cookie(name, token, options)` sets it. */
  datatype Cookie = Cookie(value: Token, domain: Option<string>, sameSite: string, maxAge: nat, httpOnly: bool)

  /** The answer of a flow: `res.status(status).json({id})` (or `{}`), or
      `next(error)`. */
  datatype Reply = Json(status: nat, id: Option<nat>) | Next(error: Error)

  /** What the outside world answers during one request: the clock
      (`Date.now()`), whether the flow's user lookup (by email or by id)
      throws, whether each repository write succeeds, and whether the
      revocation lookup throws. */
  datatype Env = Env(now: int, readFails: bool, userSaved: bool, recordSaved: bool, recordDeleted: bool,
                     lookupFails: bool)

  /** The registration body the controller destructures. */
  datatype Registration = Registration(firstname: string, lastname: string, email: string, password: string)

  function AccessCookie(c: Config, t: Token): Cookie {
    Cookie(t, c.tokenDomain, "strict", ACCESS_MAX_AGE, true)
  }

  function RefreshCookie(c: Config, t: Token): Cookie {
    Cookie(t, c.tokenDomain, "strict", REFRESH_MAX_AGE, true)
  }

  /** `{...payload, id: String(recordId)}`. */
  function WithRecordId(p: Payload, recordId: nat): Payload {
    p.(id := Some(NatToString(recordId)))
  }

  /** The jar after an issuing flow: an access token minted from `p` and a
      refresh token minted from `p` plus the new row's id. */
  function SessionCookies(jar: map<string, Cookie>, c: Config, p: Payload, recordId: nat): map<string, Cookie>
    requires TS.PrivateKeySet(c)
  {
    jar[ACCESS_COOKIE := AccessCookie(c, TS.GenerateAccessToken(c, p).value)]
       [REFRESH_COOKIE := RefreshCookie(c, TS.GenerateRefreshToken(c, WithRecordId(p, recordId)))]
  }

  /** What an issuing flow leaves in the jar: an RS256 access token carrying
      exactly `p`, and an HS256 refresh token carrying `p` plus the row id
      (also its unique-id field); both cookies http-only and same-site
      strict, living one hour and 365 days; every other cookie untouched. */
  lemma IssuedCookies(jar: map<string, Cookie>, c: Config, p: Payload, recordId: nat)
    requires TS.PrivateKeySet(c)
    ensures var jar' := SessionCookies(jar, c, p, recordId);
      && ACCESS_COOKIE in jar' && REFRESH_COOKIE in jar'
      && Verify(jar'[ACCESS_COOKIE].value, RsaPublicKeyOf(c.privateKey.value), [RS256]) == Ok(p)
      && Verify(jar'[REFRESH_COOKIE].value, HmacKey(c.refreshTokenSecret), [HS256])
           == Ok(p.(id := Some(NatToString(recordId))))
      && jar'[REFRESH_COOKIE].value.jwtid == Some(NatToString(recordId))
      && jar'[ACCESS_COOKIE].maxAge == 3_600_000
      && jar'[REFRESH_COOKIE].maxAge == 31_536_000_000 == 365 * 24 * 3_600_000
      && jar'[ACCESS_COOKIE].httpOnly && jar'[ACCESS_COOKIE].sameSite == "strict"
      && jar'[REFRESH_COOKIE].httpOnly && jar'[REFRESH_COOKIE].sameSite == "strict"
      && jar'[ACCESS_COOKIE].domain == jar'[REFRESH_COOKIE].domain == c.tokenDomain
      && forall n :: n in jar && n != ACCESS_COOKIE && n != REFRESH_COOKIE ==> n in jar' && jar'[n] == jar[n]
  {
  }

  /** The cookies a client sends back from its jar. */
  function Presented(jar: map<string, Cookie>): map<string, Token> {
    map n | n in jar :: jar[n].value
  }

  /** Some user has this email and this password's hash. */
  ghost predicate CredentialsMatch(users: map<nat, User>, hash: string -> string, email: string, password: string) {
    exists k :: k in users && users[k].email == email && hash(password) == users[k].password
  }

  /** The login decision on the looked-up user: accepted exactly when a user
      was found and the password hashes to the stored hash; every refusal is
      the same 400 with the same message, whatever its cause. */
  function CheckCredentials(found: Option<User>, hash: string -> string, password: string): (r: Result<User, Error>)
    ensures r.Ok? <==> found.Some? && hash(password) == found.value.password
    ensures r.Ok? ==> r.value == found.value
    ensures r.Err? ==> r.error == HttpError(400, LOGIN_FAILED)
  {
    match found
    case None => Err(HttpError(400, LOGIN_FAILED))
    case Some(u) => if hash(password) == u.password then Ok(u) else Err(HttpError(400, LOGIN_FAILED))
  }

  /** An unknown email and a wrong password are indistinguishable. */
  lemma LoginFailuresAreUniform(u: User, hash: string -> string, password: string)
    requires hash(password) != u.password
    ensures CheckCredentials(Some(u), hash, password) == CheckCredentials(None, hash, password)
  {
  }

  /** Right after an issuing flow, the refresh cookie in the jar passes
      `validateRefreshToken` and yields the minted claims. */
  lemma {:induction false} IssuedSessionIsLive(c: Config, jar: map<string, Cookie>, p: Payload,
                                               records: map<nat, RefreshTokenRecord>, recordId: nat)
    requires TS.PrivateKeySet(c) && WellKeyed(records) && recordId in records
    requires ParseNumber(p.sub) == Some(records[recordId].userId)
    ensures ValidateRefreshToken(c, Presented(SessionCookies(jar, c, p, recordId)), records, false)
            == Ok(WithRecordId(p, recordId))
  {
    NumberOfString(recordId);
    var cookies := Presented(SessionCookies(jar, c, p, recordId));
    assert cookies[REFRESH_COOKIE] == TS.GenerateRefreshToken(c, WithRecordId(p, recordId));
    assert records[recordId] in records.Values;
  }

  /** Rotation makes a refresh token single-use: once the row it names is
      deleted (whatever row was added meanwhile), the same cookies are
      refused as revoked. */
  lemma RotatedTokenIsRevoked(c: Config, cookies: map<string, Token>,
                              records: map<nat, RefreshTokenRecord>, added: RefreshTokenRecord, lookupFails: bool)
    requires WellKeyed(records)
    requires ValidateRefreshToken(c, cookies, records, false).Ok?
    ensures WellKeyed(TS.Without(records[added.id := added], IdClaim(ValidateRefreshToken(c, cookies, records, false).value)))
    ensures ValidateRefreshToken(c, cookies,
              TS.Without(records[added.id := added], IdClaim(ValidateRefreshToken(c, cookies, records, false).value)),
              lookupFails) == Err(Unauthorized(RevokedToken))
  {
    var p := ValidateRefreshToken(c, cookies, records, false).value;
    var after := TS.Without(records[added.id := added], IdClaim(p));
    assert IdClaim(p).Some?;
    DeletedRowIsRevoked(after, p, IdClaim(p).value);
  }

  class AuthController {
    const config: Config
    const userService: US.UserService
    const tokenService: TS.TokenService
    /** The client's cookie jar: `res.cookie` sets an entry, `res.clearCookie`
        removes one. */
    var jar: map<string, Cookie>

    ghost predicate Valid()
      reads this, userService, tokenService
    {
      userService.Valid() && tokenService.Valid() && tokenService.config == config
    }

    constructor (config: Config, userService: US.UserService, tokenService: TS.TokenService)
      requires userService.Valid() && tokenService.Valid() && tokenService.config == config
      ensures Valid() && jar == map[]
      ensures this.config == config && this.userService == userService && this.tokenService == tokenService
    {
      this.config := config;
      this.userService := userService;
      this.tokenService := tokenService;
      jar := map[];
    }

    /** `register`: creates a CUSTOMER with the hashed password, then issues
        a session for it (access token, one new refresh row, both cookies)
        and answers 201 with the new id. Each step that fails stops the flow
        with what earlier steps already wrote. */
    method Register(invalid: Option<string>, data: Registration, env: Env) returns (r: Reply)
      requires Valid()
      modifies this, userService, tokenService
      ensures Valid()
      ensures invalid.Some? ==>
                r == Next(HttpError(400, invalid.value)) && unchanged(this, userService, tokenService)
      ensures invalid.None? && env.readFails ==>
                r == Next(StoreError) && unchanged(this, userService, tokenService)
      ensures invalid.None? && !env.readFails && US.EmailTaken(old(userService.users), data.email) ==>
                r == Next(HttpError(400, US.EMAIL_TAKEN)) && unchanged(this, userService, tokenService)
      ensures invalid.None? && !env.readFails && !US.EmailTaken(old(userService.users), data.email)
              && !env.userSaved ==>
                r == Next(HttpError(500, US.SAVE_FAILED)) && unchanged(this, userService, tokenService)
      // once the user is saved it stays, whatever happens next
      ensures invalid.None? && !env.readFails && !US.EmailTaken(old(userService.users), data.email)
              && env.userSaved ==>
                var uid := old(userService.nextId);
                && uid !in old(userService.users)
                && userService.users == old(userService.users)[uid :=
                     User(uid, data.firstname, data.lastname, data.email,
                          userService.hash(data.password), CUSTOMER, None)]
                && (!TS.PrivateKeySet(config) ==>
                      r == Next(HttpError(500, TS.SECRET_KEY_NOT_SET)) && unchanged(this, tokenService))
                && (TS.PrivateKeySet(config) && !env.recordSaved ==>
                      r == Next(StoreError) && unchanged(this, tokenService))
      ensures r.Json? <==> invalid.None? && !env.readFails && !US.EmailTaken(old(userService.users), data.email)
                           && env.userSaved && TS.PrivateKeySet(config) && env.recordSaved
      ensures r.Json? ==>
                var uid, rid := old(userService.nextId), old(tokenService.nextId);
                && r == Json(201, Some(uid))
                && rid !in old(tokenService.records)
                && tokenService.records == old(tokenService.records)[rid :=
                     RefreshTokenRecord(rid, uid, env.now + TS.MS_IN_YEAR)]
                && jar == SessionCookies(old(jar), config, Payload(NatToString(uid), CUSTOMER, None), rid)
      ensures r.Json? ==> ValidateRefreshToken(config, Presented(jar), tokenService.records, false).Ok?
    {
      if invalid.Some? {
        return Next(HttpError(400, invalid.value));
      }
      var created := userService.Create(
        US.UserData(data.firstname, data.lastname, data.email, data.password, CUSTOMER, None),
        env.readFails, env.userSaved);
      if created.Err? {
        return Next(created.error);
      }
      var user := created.value;
      var payload := Payload(NatToString(user.id), user.role, None);
      var access := TS.GenerateAccessToken(config, payload);
      if access.Err? {
        return Next(access.error);
      }
      var record := tokenService.PersistRefreshToken(user, env.now, env.recordSaved);
      if record.Err? {
        return Next(record.error);
      }
      var refresh := TS.GenerateRefreshToken(config, WithRecordId(payload, record.value.id));
      jar := jar[ACCESS_COOKIE := AccessCookie(config, access.value)];
      jar := jar[REFRESH_COOKIE := RefreshCookie(config, refresh)];
      r := Json(201, Some(user.id));
      NumberOfString(user.id);
      IssuedSessionIsLive(config, old(jar), payload, tokenService.records, record.value.id);
    }

    /** `login`: looks the user up by email, compares the password with the
        stored hash, and on success issues a session exactly as register
        does, answering with the user's id. A wrong email and a wrong
        password give the same 400 and touch nothing. */
    method Login(invalid: Option<string>, email: string, password: string, env: Env) returns (r: Reply)
      requires Valid()
      modifies this, tokenService
      ensures Valid()
      ensures invalid.Some? ==>
                r == Next(HttpError(400, invalid.value)) && unchanged(this, tokenService)
      ensures invalid.None? && env.readFails ==>
                r == Next(StoreError) && unchanged(this, tokenService)
      ensures invalid.None? && !env.readFails
              && !CredentialsMatch(userService.users, userService.hash, email, password) ==>
                r == Next(HttpError(400, LOGIN_FAILED)) && unchanged(this, tokenService)
      ensures invalid.None? && !env.readFails
              && CredentialsMatch(userService.users, userService.hash, email, password)
              && !TS.PrivateKeySet(config) ==>
                r == Next(HttpError(500, TS.SECRET_KEY_NOT_SET)) && unchanged(this, tokenService)
      ensures invalid.None? && !env.readFails
              && CredentialsMatch(userService.users, userService.hash, email, password)
              && TS.PrivateKeySet(config) && !env.recordSaved ==>
                r == Next(StoreError) && unchanged(this, tokenService)
      ensures r.Json? <==> invalid.None? && !env.readFails && CredentialsMatch(userService.users, userService.hash, email, password)
                           && TS.PrivateKeySet(config) && env.recordSaved
      ensures r.Json? ==>
                r.status == 200 && r.id.Some? && r.id.value in userService.users &&
                var u, rid := userService.users[r.id.value], old(tokenService.nextId);
                && u.email == email && userService.hash(password) == u.password
                && rid !in old(tokenService.records)
                && tokenService.records == old(tokenService.records)[rid :=
                     RefreshTokenRecord(rid, u.id, env.now + TS.MS_IN_YEAR)]
                && jar == SessionCookies(old(jar), config, Payload(NatToString(u.id), u.role, None), rid)
      ensures r.Json? ==> ValidateRefreshToken(config, Presented(jar), tokenService.records, false).Ok?
    {
      if invalid.Some? {
        return Next(HttpError(400, invalid.value));
      }
      if env.readFails {
        return Next(StoreError);
      }
      var found := userService.FindByEmail(email);
      var checked := CheckCredentials(found, userService.hash, password);
      if checked.Err? {
        return Next(checked.error);
      }
      var user := checked.value;
      var payload := Payload(NatToString(user.id), user.role, None);
      var access := TS.GenerateAccessToken(config, payload);
      if access.Err? {
        return Next(access.error);
      }
      var record := tokenService.PersistRefreshToken(user, env.now, env.recordSaved);
      if record.Err? {
        return Next(record.error);
      }
      var refresh := TS.GenerateRefreshToken(config, WithRecordId(payload, record.value.id));
      jar := jar[ACCESS_COOKIE := AccessCookie(config, access.value)];
      jar := jar[REFRESH_COOKIE := RefreshCookie(config, refresh)];
      r := Json(200, Some(user.id));
      NumberOfString(user.id);
      IssuedSessionIsLive(config, old(jar), payload, tokenService.records, record.value.id);
    }

    /** `refresh`, given the claims the refresh middleware released: mints
        a new access token from the claims' subject and role, finds the
        user, persists a new row for it and only then deletes the row the
        claims name, and sets both cookies. */
    method Refresh(auth: Payload, env: Env) returns (r: Reply)
      requires Valid()
      modifies this, tokenService
      ensures Valid()
      ensures !TS.PrivateKeySet(config) ==>
                r == Next(HttpError(500, TS.SECRET_KEY_NOT_SET)) && unchanged(this, tokenService)
      ensures TS.PrivateKeySet(config) && env.readFails ==>
                r == Next(StoreError) && unchanged(this, tokenService)
      ensures TS.PrivateKeySet(config) && !env.readFails && !US.HasId(userService.users, ParseNumber(auth.sub)) ==>
                r == Next(HttpError(400, USER_NOT_FOUND)) && unchanged(this, tokenService)
      ensures TS.PrivateKeySet(config) && !env.readFails && US.HasId(userService.users, ParseNumber(auth.sub)) ==>
                var uid, rid := ParseNumber(auth.sub).value, old(tokenService.nextId);
                var added := old(tokenService.records)[rid := RefreshTokenRecord(rid, uid, env.now + TS.MS_IN_YEAR)];
                && rid !in old(tokenService.records)
                && (!env.recordSaved ==> r == Next(StoreError) && unchanged(this, tokenService))
                // the new row is written before the old one is deleted: a failed
                // delete leaves both rows in place
                && (env.recordSaved && !env.recordDeleted ==>
                      r == Next(StoreError) && jar == old(jar) && tokenService.records == added)
                && (env.recordSaved && env.recordDeleted ==>
                      && r == Json(200, Some(uid))
                      && tokenService.records == TS.Without(added, IdClaim(auth))
                      && jar == SessionCookies(old(jar), config, Payload(auth.sub, auth.role, None), rid))
    {
      var payload := Payload(auth.sub, auth.role, None);
      var access := TS.GenerateAccessToken(config, payload);
      if access.Err? {
        return Next(access.error);
      }
      if env.readFails {
        return Next(StoreError);
      }
      var found := userService.FindById(ParseNumber(auth.sub));
      if found.None? {
        return Next(HttpError(400, USER_NOT_FOUND));
      }
      var user := found.value;
      var record := tokenService.PersistRefreshToken(user, env.now, env.recordSaved);
      if record.Err? {
        return Next(record.error);
      }
      var deleted := tokenService.DeleteRefreshToken(IdClaim(auth), env.recordDeleted);
      if deleted.Err? {
        return Next(deleted.error);
      }
      var refresh := TS.GenerateRefreshToken(config, WithRecordId(payload, record.value.id));
      jar := jar[ACCESS_COOKIE := AccessCookie(config, access.value)];
      jar := jar[REFRESH_COOKIE := RefreshCookie(config, refresh)];
      r := Json(200, Some(user.id));
    }

    /** `logout`: deletes the row the claims name and clears both cookies,
        answering `{}`. A row that is already gone is not an error. */
    method Logout(auth: Payload, env: Env) returns (r: Reply)
      requires Valid()
      modifies this, tokenService
      ensures Valid()
      ensures r.Json? <==> env.recordDeleted
      ensures r.Json? ==>
                && r == Json(200, None)
                && tokenService.records == TS.Without(old(tokenService.records), IdClaim(auth))
                && jar == old(jar) - {ACCESS_COOKIE, REFRESH_COOKIE}
      ensures r.Next? ==> r.error == StoreError && unchanged(this, tokenService)
    {
      var deleted := tokenService.DeleteRefreshToken(IdClaim(auth), env.recordDeleted);
      if deleted.Err? {
        return Next(deleted.error);
      }
      jar := jar - {ACCESS_COOKIE, REFRESH_COOKIE};
      r := Json(200, None);
    }

    /** POST /auth/refresh: `validateRefreshToken`, then `refresh`. A
        refused token changes nothing. After a success the presented cookies
        are revoked (a refresh token works once) and the jar's new refresh
        cookie is live. */
    method RefreshRoute(cookies: map<string, Token>, env: Env) returns (r: Reply)
      requires Valid()
      modifies this, tokenService
      ensures Valid()
      ensures old(ValidateRefreshToken(config, cookies, tokenService.records, env.lookupFails)).Err? ==>
                r == Next(old(ValidateRefreshToken(config, cookies, tokenService.records, env.lookupFails)).error)
                && unchanged(this, tokenService)
      ensures r.Json? <==>
                var auth := old(ValidateRefreshToken(config, cookies, tokenService.records, env.lookupFails));
                && auth.Ok? && TS.PrivateKeySet(config) && !env.readFails
                && US.HasId(userService.users, ParseNumber(auth.value.sub))
                && env.recordSaved && env.recordDeleted
      // a verified token hands its claims to `refresh`, with all of its outcomes
      ensures var auth := old(ValidateRefreshToken(config, cookies, tokenService.records, env.lookupFails));
              auth.Ok? ==>
                var p := auth.value;
                && (!TS.PrivateKeySet(config) ==>
                      r == Next(HttpError(500, TS.SECRET_KEY_NOT_SET)) && unchanged(this, tokenService))
                && (TS.PrivateKeySet(config) && env.readFails ==>
                      r == Next(StoreError) && unchanged(this, tokenService))
                && (TS.PrivateKeySet(config) && !env.readFails && !US.HasId(userService.users, ParseNumber(p.sub)) ==>
                      r == Next(HttpError(400, USER_NOT_FOUND)) && unchanged(this, tokenService))
                && (TS.PrivateKeySet(config) && !env.readFails && US.HasId(userService.users, ParseNumber(p.sub)) ==>
                      var uid, rid := ParseNumber(p.sub).value, old(tokenService.nextId);
                      var added := old(tokenService.records)[rid := RefreshTokenRecord(rid, uid, env.now + TS.MS_IN_YEAR)];
                      && rid !in old(tokenService.records)
                      && (!env.recordSaved ==> r == Next(StoreError) && unchanged(this, tokenService))
                      && (env.recordSaved && !env.recordDeleted ==>
                            r == Next(StoreError) && jar == old(jar) && tokenService.records == added)
                      && (env.recordSaved && env.recordDeleted ==>
                            && r == Json(200, Some(uid))
                            && tokenService.records == TS.Without(added, IdClaim(p))
                            && jar == SessionCookies(old(jar), config, Payload(p.sub, p.role, None), rid)))
      ensures r.Json? ==> ValidateRefreshToken(config, cookies, tokenService.records, false).Err?
      ensures r.Json? ==> ValidateRefreshToken(config, Presented(jar), tokenService.records, false).Ok?
    {
      var auth := ValidateRefreshToken(config, cookies, tokenService.records, env.lookupFails);
      if auth.Err? {
        return Next(auth.error);
      }
      ghost var before := tokenService.records;
      r := Refresh(auth.value, env);
      if r.Json? {
        var uid, rid := ParseNumber(auth.value.sub).value, old(tokenService.nextId);
        var added := RefreshTokenRecord(rid, uid, env.now + TS.MS_IN_YEAR);
        assert ValidateRefreshToken(config, cookies, before, false) == auth;
        RotatedTokenIsRevoked(config, cookies, before, added, false);
        IssuedSessionIsLive(config, old(jar), Payload(auth.value.sub, auth.value.role, None),
                            tokenService.records, rid);
      }
    }

    /** POST /auth/logout: `parseRefreshToken` (signature only, no revocation
        check), then `logout`. A correctly signed token whose row is already
        gone still logs out; afterwards the presented token cannot refresh. */
    method LogoutRoute(cookies: map<string, Token>, env: Env) returns (r: Reply)
      requires Valid()
      modifies this, tokenService
      ensures Valid()
      ensures ParseRefreshToken(config, cookies).Err? ==>
                r == Next(ParseRefreshToken(config, cookies).error) && unchanged(this, tokenService)
      ensures r.Json? <==> ParseRefreshToken(config, cookies).Ok? && env.recordDeleted
      ensures ParseRefreshToken(config, cookies).Ok? && !env.recordDeleted ==>
                r == Next(StoreError) && unchanged(this, tokenService)
      ensures r.Json? ==>
                && r == Json(200, None)
                && tokenService.records == TS.Without(old(tokenService.records), IdClaim(ParseRefreshToken(config, cookies).value))
                && jar == old(jar) - {ACCESS_COOKIE, REFRESH_COOKIE}
      ensures r.Json? ==> ValidateRefreshToken(config, cookies, tokenService.records, false).Err?
    {
      var auth := ParseRefreshToken(config, cookies);
      if auth.Err? {
        return Next(auth.error);
      }
      r := Logout(auth.value, env);
      if r.Json? && IdClaim(auth.value).Some? {
        DeletedRowIsRevoked(tokenService.records, auth.value, IdClaim(auth.value).value);
      }
    }
  }

  /** A client's session from registration to logout: the first refresh
      succeeds, replaying its cookies is refused as revoked, and after logout
      the last refresh cookie is refused too. */
  method SessionScenario(c: AuthController, data: Registration, env: Env)
    requires c.Valid() && TS.PrivateKeySet(c.config)
    requires !US.EmailTaken(c.userService.users, data.email)
    requires !env.readFails && env.userSaved && env.recordSaved && env.recordDeleted && !env.lookupFails
    modifies c, c.userService, c.tokenService
  {
    var r := c.Register(None, data, env);
    assert r.Json?;
    var first := Presented(c.jar);
    NumberOfString(r.id.value);
    assert first[REFRESH_COOKIE].payload.sub == NatToString(r.id.value);
    r := c.RefreshRoute(first, env);
    assert r.Json?;
    var second := Presented(c.jar);
    assert ParseRefreshToken(c.config, second).Ok?;
    var replay := c.RefreshRoute(first, env);
    assert replay == Next(Unauthorized(RevokedToken));
    r := c.LogoutRoute(second, env);
    assert r == Json(200, None);
    var afterLogout := c.RefreshRoute(second, env);
    assert afterLogout == Next(Unauthorized(RevokedToken));
  }
}
