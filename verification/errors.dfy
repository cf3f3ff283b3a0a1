/** The HTTP errors raised by the services, the token utilities and the
    request dependencies, and the failures of the JWT library. */
module Errors {

  /** The kinds of `JWTError` the token library raises while decoding. */
  datatype JwtError =
    | ExpiredSignature   // the `exp` claim lies in the past
    | InvalidSignature   // the signature does not match the secret key
    | MalformedToken     // the token is not three base64url segments of JSON
    | InvalidClaims      // a registered claim (such as `exp`) has the wrong type

  /** The `detail` of each `HTTPException` the core raises; one constructor per
      distinct message. */
  datatype Detail =
    | UserNotFound                  // post service: the author does not exist
    | PostCreateFailed              // post service: the insert could not be committed
    | PostNotFoundOrNotOwned        // post service: no post with this id and owner
    | PostDeleteFailed              // post service: the delete could not be committed
    | EmailAlreadyRegistered        // user service: email found before the insert
    | UserCreateConflict            // user service: integrity error on commit
    | BadCredentials                // user service: unknown email OR wrong password
    | MissingRequiredFields         // auth: payload lacks `sub` or `user_id`
    | InvalidToken(cause: JwtError) // auth: the token could not be decoded
    | MissingUserId                 // auth: payload has no `user_id`
    | CurrentUserNotFound           // dependencies: token valid, user gone

  datatype HttpError = HttpError(status: int, detail: Detail)

  const HTTP_400_BAD_REQUEST := 400
  const HTTP_401_UNAUTHORIZED := 401
  const HTTP_404_NOT_FOUND := 404
  const HTTP_500_INTERNAL_SERVER_ERROR := 500
}
