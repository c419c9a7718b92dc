/** Shared vocabulary of the auth service: optional values, results, the
    errors a flow hands to `next(...)`, and the configuration read from the
    environment at start-up (src/config/index.ts). */
module Common {

  datatype Option<+T> = None | Some(value: T)

  datatype Result<+T, +E> = Ok(value: T) | Err(error: E)

  /** Why express-jwt refuses a request (it answers 401 for all three). */
  datatype JwtRejection = CredentialsRequired | InvalidToken | RevokedToken

  /** What a flow passes to `next(error)`. */
  datatype Error =
    | HttpError(status: nat, message: string)  // createHttpError(status, message)
    | Unauthorized(reason: JwtRejection)       // express-jwt's UnauthorizedError
    | StoreError                               // an exception thrown by the repository layer

  /** The process-wide configuration, read once from the environment.
      `privateKey` may be absent (or empty); the other entries are taken as
      configured. */
  datatype Config = Config(
    privateKey: Option<string>,     // PRIVATE_KEY (PEM of the RSA signing key)
    refreshTokenSecret: string,     // REFRESH_TOKEN_SECRET (HMAC secret)
    tokenIssuer: string,            // TOKEN_ISSUER
    accessTokenExpiresIn: string,   // ACCESS_TOKEN_EXPIRESIN
    refreshTokenExpiresIn: string,  // REFRESH_TOKEN_EXPIRESIN
    tokenDomain: Option<string>)    // TOKEN_DOMAIN (cookie domain)
}
