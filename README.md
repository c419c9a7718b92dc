# Refresh-token session lifecycle of the auth service, in Dafny

This project models the core of an Express/TypeORM authentication service: how it
issues, rotates and revokes sessions. A session is an RS256 access token and an
HS256 refresh token, each held in an http-only cookie. The refresh token is
backed by one row of a refresh-token table. The model covers:

- the four flows of the auth controller: register, login, refresh and logout;
- the two routes that put a refresh-token middleware in front of refresh
  (with the revocation check) and logout (signature only);
- the token service: minting both tokens, persisting a row that expires
  365 days later, deleting a row;
- the revocation check `isRevoked`, which fails closed;
- the role gate `canAccess`;
- user creation, with a duplicate-email check and a hashed password, and the
  two user lookups;
- the `isJwt` shape check used by the tests.

Both tables are `map`s from integer id to row, owned by the service classes
`TokenService.TokenService` and `UserService.UserService`. The controller class
`AuthController.AuthController` holds the two services and the client's cookie
jar. `res.cookie` sets an entry of the jar and `res.clearCookie` removes one. A
token is a value that carries its claims, its algorithm, a reference to the key
it was signed with, its issuer, its lifetime string and its unique id.
Verification accepts a token exactly when its algorithm is allowed and its key
reference matches the verifier's key.

Everything the outside world decides during one request becomes a parameter:

- the clock (`Date.now()`);
- whether the flow's user lookup throws (`findOne` by email in `create`, the
  login lookup, `findbyId` in refresh);
- whether each repository write succeeds;
- whether the revocation lookup throws;
- the first message of the request validator, if any.

These are the `Env` datatype, plus an `invalid` argument for the validator. The
password hash is a function-valued field of the user service and is left
uninterpreted. Comparing a password means checking `hash(password) == stored`.

`AuthController.SessionScenario` chains the flows for one client: register,
refresh, a replay of the first refresh cookie, logout, and a refresh with the
logged-out cookie. It proves that the replay and the last refresh are both
refused as revoked.

Three behaviours of the code are easy to miss:

- the refresh middleware does not check the issuer, only the algorithm and the
  key;
- `refresh` deletes the old row before it mints the new refresh token;
- `logout` performs no revocation check.

## Model

| member | source | states |
|---|---|---|
| `Numbers.NatToString` | src/controllers/AuthController.ts:63-66 | `String(id)` is a non-empty run of decimal digits with no leading zero |
| `Numbers.ParseNumber` | src/middlewares/validateRefreshToken.ts:29-30 | `Number(s)` is a number exactly when `s` is all digits; `Number("")` is 0 |
| `Numbers.NumberOfString` | src/middlewares/validateRefreshToken.ts:27-31 | `Number(String(n)) === n`: an id written into a claim reads back as the same id |
| `Numbers.StringIsInjective` | src/controllers/AuthController.ts:76-79 | two ids with the same spelling are the same id, so an id claim names one row |
| `Jwt.Verify` | src/middlewares/validateRefreshToken.ts:11-20 | claims are released only for an allowed algorithm and a matching key, and are the token's own; anything else is a 401 invalid-token refusal |
| `TokenService.GenerateAccessToken` | src/services/TokenService.ts:12-53 | without PRIVATE_KEY: 500 "SECRET_KEY is not set" and no token; otherwise the token verifies with RS256 under the matching public key, yields exactly the payload, and has TOKEN_ISSUER and ACCESS_TOKEN_EXPIRESIN |
| `TokenService.GenerateRefreshToken` | src/services/TokenService.ts:55-63 | the token verifies with HS256 under REFRESH_TOKEN_SECRET and yields exactly the payload; its issuer is TOKEN_ISSUER, its lifetime REFRESH_TOKEN_EXPIRESIN, and its jwtid equals the `id` claim |
| `TokenService.AccessTokenIsNoRefreshToken` | src/services/TokenService.ts:46-50 | an access token never passes the refresh-token verification (HS256, shared secret) |
| `TokenService.RefreshTokenIsNoAccessToken` | src/services/TokenService.ts:56-61 | a refresh token never passes an RS256 verification |
| `TokenService.Without` | src/services/TokenService.ts:74-76 | deleting by id keeps exactly the other rows, with their contents unchanged; a NaN id deletes nothing |
| `TokenService.DeleteIsIdempotent` | src/services/TokenService.ts:74-76 | deleting the same id twice gives the same table as deleting it once |
| `TokenService.TokenService.constructor` | src/services/TokenService.ts:10 | a token service starts with an empty, well-keyed table |
| `TokenService.TokenService.PersistRefreshToken` | src/services/TokenService.ts:64-72 | on a successful save, exactly one row is added, under a fresh id, owned by the user, with `expireAt = now + 31,536,000,000`, and the other rows are unchanged; a failed save changes nothing |
| `TokenService.TokenService.DeleteRefreshToken` | src/services/TokenService.ts:74-76 | on success the table loses exactly the row with that id (none if it is already gone); a failed delete changes nothing |
| `UserService.UserService.constructor` | src/services/userService.ts:9 | a user service starts with an empty table |
| `UserService.UserService.Create` | src/services/userService.ts:11-38 | a lookup that throws passes its error through; an existing email gives 400 "Email is already exist!"; a failed save gives 500 "Failed to store data in database."; none of these changes the table. Otherwise one user is added under a fresh id, with `hash(password)`, the given role and no tenant. Emails stay unique |
| `UserService.UserService.FindByEmail` | src/services/userService.ts:40-43 | returns the unique user with that email, or none exactly when no user has it; reads only |
| `UserService.UserService.FindById` | src/services/userService.ts:45-51 | returns the user under that id, or none when the id is NaN or absent; reads only |
| `RefreshMiddleware.IsRevoked` | src/middlewares/validateRefreshToken.ts:22-45 | revoked exactly when the lookup throws, or when no row has both id `Number(id)` and owner `Number(sub)` |
| `RefreshMiddleware.ForeignOwnerIsRevoked` | src/middlewares/validateRefreshToken.ts:27-31 | a row with the token's id but another owner still leaves the token revoked |
| `RefreshMiddleware.DeletedRowIsRevoked` | src/middlewares/validateRefreshToken.ts:33-34 | a token whose row is gone is revoked |
| `RefreshMiddleware.IssuedClaimsAreLive` | src/middlewares/validateRefreshToken.ts:27-34 | claims spelled from an existing row's id and owner are not revoked |
| `RefreshMiddleware.ParseRefreshToken` | src/middlewares/parseRefreshToken.middleware.ts:8-18 | accepts exactly an HS256 token signed with REFRESH_TOKEN_SECRET, found in the `refreshToken` cookie; with no such cookie, 401 credentials-required |
| `RefreshMiddleware.ValidateRefreshToken` | src/middlewares/validateRefreshToken.ts:11-46 | accepts exactly what the parser accepts, provided the lookup does not throw and a row matches both id and owner; a verified but revoked token gets 401 revoked |
| `CanAccess.CanAccess` | src/middlewares/canAccess.ts:5-16 | continues exactly when the token's role is listed; otherwise 403 "You don't have permission!" |
| `CanAccess.AdminIsNotManager` | src/middlewares/canAccess.ts:10 | no role hierarchy: admin is denied on a manager-only route |
| `CanAccess.EmptyListDeniesEveryone` | src/middlewares/canAccess.ts:5-13 | an empty role list denies every role |
| `CanAccess.OnlyMembershipMatters` | src/middlewares/canAccess.ts:10 | the verdict depends only on which roles are listed, not on their order or repetition |
| `TestUtils.Split` | tests/utils/index.ts:16 | `split` always yields at least one part |
| `TestUtils.SplitLength` | tests/utils/index.ts:16-19 | `split('.')` yields one more part than the token has dots |
| `TestUtils.SplitJoin` | tests/utils/index.ts:16 | the parts hold no separator, and joining them gives back the input |
| `TestUtils.IsJwt` | tests/utils/index.ts:12-29 | null gives false; otherwise true exactly when the string has two dots |
| `TestUtils.CompactTokenIsJwt` | tests/utils/index.ts:16-24 | every `header.payload.signature` with dot-free segments passes |
| `TestUtils.TwoDotsAreJwt` | tests/utils/index.ts:20-24 | ".." passes, while "a.b" and "a.b.c.d" fail |
| `TestUtils.IsJwtStrict` | tests/utils/index.ts:20-27 | the intended check: three non-empty base64url segments; it implies `isJwt` |
| `TestUtils.StrictCheckAcceptsCompactTokens` | tests/utils/index.ts:20-27 | the strict check accepts every compact token with non-empty base64url segments and refuses ".." |
| `AuthController.IssuedCookies` | src/controllers/AuthController.ts:81-95 | an issuing flow sets an access cookie holding exactly the payload (RS256) and a refresh cookie holding the payload plus the row id, which is also the jwtid. Both are httpOnly, sameSite strict and on the configured domain, with maxAge 3,600,000 and 31,536,000,000. Other cookies are untouched |
| `AuthController.CheckCredentials` | src/controllers/AuthController.ts:126-149 | login proceeds exactly when the user exists and the password hashes to the stored hash; every refusal is 400 "Email or Password does not match!" |
| `AuthController.LoginFailuresAreUniform` | src/controllers/AuthController.ts:127-148 | an unknown email and a wrong password produce the identical error |
| `AuthController.IssuedSessionIsLive` | src/controllers/AuthController.ts:161-166 | straight after issuance, the jar's refresh cookie passes `validateRefreshToken`: its `id` claim names the new row and its owner matches |
| `AuthController.RotatedTokenIsRevoked` | src/controllers/AuthController.ts:219-223 | once the row a valid token names is deleted (whatever row was added), the same cookies are refused as revoked |
| `AuthController.AuthController.constructor` | src/controllers/AuthController.ts:16-22 | the controller starts with both services valid and an empty jar |
| `AuthController.AuthController.Register` | src/controllers/AuthController.ts:25-103 | a validation failure gives 400 with its message; a failed lookup, a duplicate email or a failed save gives the create errors; none of these changes anything. Otherwise a CUSTOMER with the hashed password is stored and stays stored. A missing key (500) or failed persist stops here with no row and no cookie. On success: 201 with the new id, exactly one new row owned by it, cookies from `{sub: String(id), role}`, and a live refresh cookie |
| `AuthController.AuthController.Login` | src/controllers/AuthController.ts:106-188 | a lookup that throws gives a store error and changes nothing. Without matching credentials: the one 400 "Email or Password does not match!", table and jar unchanged. A missing key gives 500 and a failed persist a store error, both with nothing changed. On success: the user's id, exactly one new row owned by that user whose id is the refresh token's `id` claim, both cookies, and a live refresh cookie |
| `AuthController.AuthController.Refresh` | src/controllers/AuthController.ts:197-251 | a missing key gives 500; then a lookup that throws gives a store error and an unknown subject gives 400 "User with the token could not be found!"; none of these changes anything. Otherwise the new row is persisted before the old row is deleted: a failed delete leaves both rows. On success the old id is gone, the new row is owned by the same user, every other row is unchanged, and new cookies carry the old token's sub and role |
| `AuthController.AuthController.Logout` | src/controllers/AuthController.ts:254-267 | deletes only the row the claims name, removes both cookies from the modelled jar (which ignores domains) and answers `{}`; a row that is already gone is no error; a failed delete changes nothing |
| `AuthController.AuthController.RefreshRoute` | src/routes/auth.ts:80-85 | a refused token changes nothing. A valid token gets every outcome of `refresh` for its claims: the same errors and states, including both rows kept when only the delete fails. Success happens exactly when the token is valid, the key is set, the lookup succeeds, the subject exists and both writes succeed. Then the reply is 200 with the user's id, the old row is replaced by a new row owned by the same user, and the jar holds the new cookies. The presented cookies are then revoked (single use) and the new refresh cookie is live |
| `AuthController.AuthController.LogoutRoute` | src/routes/auth.ts:88-93 | logs out any correctly signed refresh cookie, even one whose row is gone, with no revocation check: 200 `{}`, the claimed row deleted, both cookies removed from the jar. A failed delete gives a store error and changes nothing. Afterwards that token can no longer refresh |

## Left out

- JWT cryptography is not computed. This covers the signature bytes, the compact base64url encoding, RSA key generation, and the `exp` check that express-jwt performs. A token is a value with a key reference, so an expired refresh token is not refused by the model.
- The issuer is carried in the token but checked by no middleware, as in the code.
- bcrypt is not computed. `hash` is an uninterpreted, deterministic function, so salting is not modelled. `comparePassword` is `hash(p) == stored`. The credential service is not part of this model.
- `findByEmailWithPassword`, called by login, is not part of this model. Login uses `FindByEmail`, whose user carries the stored hash.
- `Number(...)` is modelled only for the strings the core produces: the empty string and runs of digits. Signs, decimals, hex and whitespace count as NaN. A NaN id is modelled as matching no row in `findbyId`, in the revocation lookup and in `deleteRefreshToken`. The database may throw on such an id instead.
- A missing REFRESH_TOKEN_SECRET, TOKEN_ISSUER or expiry setting is not modelled: what `sign` does then is internal to jsonwebtoken. Only a missing or empty PRIVATE_KEY is modelled.
- `GenerateAccessToken` does not model `sign` throwing on a PRIVATE_KEY that is set but is not a valid PEM key: every non-empty key is treated as usable. In the code that error reaches `next(error)`, after register has already saved the user.
- The `catch` in `generateAccessToken` ("Error while reading private key") guards a plain assignment and can never run, so it is not modelled.
- The global error handler is not part of this model. A repository exception is `StoreError`, with no HTTP status attached.
- The request validators (express-validator schemas) are reduced to their first error message, passed as `invalid`.
- The `authenticate` middleware, the `self` route, the tenant and user CRUD controllers, logging, CORS and configuration loading are not modelled.
- Concurrency is not modelled: each flow is one sequential step, so races between two refreshes with the same token are not modelled. The repository's id sequence is a counter that starts at 1, and a failed save does not advance it.
- Cookie transport is not modelled. The jar is keyed by name only, and `res.clearCookie` removes the entry.
- AuthController.AuthController.Logout: the code sets both cookies with `domain: TOKEN_DOMAIN` (src/controllers/AuthController.ts:82-95) but clears them with no domain (src/controllers/AuthController.ts:261-262). A browser drops a cookie only when name, domain and path match, so when TOKEN_DOMAIN differs from the request host, logout leaves both cookies in the browser. The jar ignores domains, so the model clears them anyway. The server-side revocation (the deleted row) is modelled faithfully.

## Findings

| source | as written | input that shows it | evidently intended | confidence | as-written member | corrected member |
|---|---|---|---|---|---|---|
| tests/utils/index.ts:20-27 | the `try`/`catch` around `Buffer.from(part, 'base64')` can never catch anything, because Node's base64 decoding does not throw; any string with exactly two dots passes | `isJwt("..")` is true | three non-empty base64url segments | medium, not executed | `TestUtils.TwoDotsAreJwt` | `TestUtils.StrictCheckAcceptsCompactTokens` |
