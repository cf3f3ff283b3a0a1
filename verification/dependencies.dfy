/** The request dependencies that turn a bearer credential into the
    authenticated user id, the user row, or the raw payload. */
module Dependencies {
  import opened Wrappers
  import opened Errors
  import opened Models
  import opened Auth
  import Tables

  /** `get_current_user_id`: the user id of the bearer token; a token that
      does not verify is a 401. */
  function GetCurrentUserId(codec: Codec, token: string, now: int): (r: Result<Json, HttpError>)
    ensures r.Success? <==> VerifyToken(codec, token, now).Success?
    ensures r.Success? ==> r.value != JNull && Get(VerifyToken(codec, token, now).value, "user_id") == Some(r.value)
    ensures r.Failure? ==> r.error.status == HTTP_401_UNAUTHORIZED
    ensures r.Failure? ==> r.error == ExtractUserIdFromToken(codec, token, now).error
  {
    ExtractUserIdFromToken(codec, token, now)
  }

  /** `get_current_user`: the user row for the token's user id; a valid token
      whose user is not in the table is a 404. */
  function GetCurrentUser(db: Tables.Db, codec: Codec, token: string, now: int): (r: Result<User, HttpError>)
    reads db
    ensures GetCurrentUserId(codec, token, now).Failure? ==> r == Failure(GetCurrentUserId(codec, token, now).error)
    ensures r.Success? ==> r.value in db.users && GetCurrentUserId(codec, token, now) == Success(JInt(r.value.id))
    ensures GetCurrentUserId(codec, token, now).Success? && r.Failure? ==> r.error == HttpError(HTTP_404_NOT_FOUND, CurrentUserNotFound)
    ensures (GetCurrentUserId(codec, token, now).Success? && GetCurrentUserId(codec, token, now).value.JInt?)
            ==> (r.Success? <==> Tables.HasUser(db.users, GetCurrentUserId(codec, token, now).value.i))
  {
    var userId :- GetCurrentUserId(codec, token, now);
    var user := if userId.JInt? then Tables.FindUserById(db.users, userId.i) else None;
    if user.None? then Failure(HttpError(HTTP_404_NOT_FOUND, CurrentUserNotFound)) else Success(user.value)
  }

  /** `validate_token_only`: the verified payload, unchanged. */
  function ValidateTokenOnly(codec: Codec, token: string, now: int): (r: Result<Claims, HttpError>)
    ensures r.Success? ==> codec.decode(token, now).Success? && r.value == codec.decode(token, now).value
    ensures r.Success? ==> Get(r.value, "sub").Some? && Get(r.value, "user_id").Some?
    ensures r.Failure? ==> r.error.status == HTTP_401_UNAUTHORIZED
    ensures r.Success? <==> GetCurrentUserId(codec, token, now).Success?
  {
    VerifyToken(codec, token, now)
  }

  /** `optional_authentication`: the user id when a valid token is present,
      and `None` (never an error) when the token is absent or invalid. */
  function OptionalAuthentication(codec: Codec, credentials: Option<string>, now: int): (r: Option<Json>)
    ensures credentials.None? ==> r.None?
    ensures credentials.Some? ==> (r.Some? <==> GetCurrentUserId(codec, credentials.value, now).Success?)
    ensures r.Some? ==> r.value == GetCurrentUserId(codec, credentials.value, now).value
  {
    match credentials
    case None => None
    case Some(token) =>
      match ExtractUserIdFromToken(codec, token, now)
      case Success(userId) => Some(userId)
      case Failure(_) => None
  }

  /** A live login token authenticates as its account, optionally or not. */
  lemma LoginTokenAuthenticates(codec: Codec, email: string, userId: int, now: int, later: int)
    requires SoundCodec(codec)
    requires later <= ExpiryTime(now, None)
    ensures var token := CreateAccessToken(codec, LoginClaims(email, userId), None, now);
      && GetCurrentUserId(codec, token, later) == Success(JInt(userId))
      && OptionalAuthentication(codec, Some(token), later) == Some(JInt(userId))
  {
    TokenRoundTrip(codec, email, userId, None, now, later);
  }
}
