/** Account registration and login. */
module UserService {
  import opened Wrappers
  import opened Errors
  import opened Models
  import opened Auth
  import opened Tables

  datatype TokenResponse = TokenResponse(accessToken: string, tokenType: string)

  const TOKEN_TYPE := "bearer"

  /** `create_user`: refuses a registered email, otherwise stores the
      password's hash under a new id. `salt` is the salt bcrypt draws, `now`
      the insert time, and `commitOk` whether the commit succeeds; a failed
      commit (an integrity error) is rolled back. */
  method CreateUser(db: Db, email: string, password: string, hasher: Hasher, salt: string, now: int, commitOk: bool)
    returns (r: Result<User, HttpError>)
    requires db.Valid()
    modifies db
    ensures db.Valid()
    ensures FindUserByEmail(old(db.users), email).Some? ==>
              r == Failure(HttpError(HTTP_400_BAD_REQUEST, EmailAlreadyRegistered)) && unchanged(db)
    ensures FindUserByEmail(old(db.users), email).None? && !commitOk ==>
              r == Failure(HttpError(HTTP_400_BAD_REQUEST, UserCreateConflict)) && unchanged(db)
    ensures FindUserByEmail(old(db.users), email).None? && commitOk ==>
              && r == Success(User(old(db.nextUserId), email, hasher.hash(password, salt), now))
              && db.users == old(db.users) + [r.value]
              && db.posts == old(db.posts)
              && db.nextUserId == old(db.nextUserId) + 1 && db.nextPostId == old(db.nextPostId)
  {
    var existing := FindUserByEmail(db.users, email);
    if existing.Some? {
      return Failure(HttpError(HTTP_400_BAD_REQUEST, EmailAlreadyRegistered));
    }
    var hashed := hasher.hash(password, salt);
    var user := User(db.nextUserId, email, hashed, now);
    if !commitOk {
      return Failure(HttpError(HTTP_400_BAD_REQUEST, UserCreateConflict));
    }
    ghost var users := db.users;
    db.users := db.users + [user];
    db.nextUserId := db.nextUserId + 1;
    forall i | 0 <= i < |db.posts| ensures HasUser(db.users, db.posts[i].userId) {
      var j :| 0 <= j < |users| && users[j].id == db.posts[i].userId;
      assert db.users[j] == users[j];
    }
    r := Success(user);
  }

  /** `authenticate_user`: a token for the account with this email, if the
      password verifies against its stored hash. An unknown email and a wrong
      password give the same 401. */
  function AuthenticateUser(db: Db, email: string, password: string, hasher: Hasher, codec: Codec, now: int)
    : (r: Result<TokenResponse, HttpError>)
    reads db
    ensures r.Failure? ==> r.error == HttpError(HTTP_401_UNAUTHORIZED, BadCredentials)
    ensures r.Success? <==>
              FindUserByEmail(db.users, email).Some?
              && hasher.verify(password, FindUserByEmail(db.users, email).value.hashedPassword)
    ensures r.Success? ==>
              var user := FindUserByEmail(db.users, email).value;
              r.value == TokenResponse(CreateAccessToken(codec, LoginClaims(user.email, user.id), None, now), TOKEN_TYPE)
  {
    match FindUserByEmail(db.users, email)
    case None => Failure(HttpError(HTTP_401_UNAUTHORIZED, BadCredentials))
    case Some(user) =>
      if !hasher.verify(password, user.hashedPassword) then
        Failure(HttpError(HTTP_401_UNAUTHORIZED, BadCredentials))
      else
        Success(TokenResponse(CreateAccessToken(codec, LoginClaims(user.email, user.id), None, now), TOKEN_TYPE))
  }

  /** An account that signed up with `password` can log in with it, and the
      token identifies the account until it expires; any other password is
      refused with the same error as an unknown email. */
  lemma LoginAfterSignup(db: Db, user: User, password: string, other: string, salt: string,
                         hasher: Hasher, codec: Codec, now: int, later: int)
    requires SoundHasher(hasher) && SoundCodec(codec)
    requires FindUserByEmail(db.users, user.email) == Some(user)
    requires user.hashedPassword == hasher.hash(password, salt)
    requires other != password
    requires now <= later <= now + ACCESS_TOKEN_EXPIRE_MINUTES * SECONDS_PER_MINUTE
    ensures AuthenticateUser(db, user.email, password, hasher, codec, now).Success?
    ensures ExtractUserIdFromToken(codec, AuthenticateUser(db, user.email, password, hasher, codec, now).value.accessToken, later)
         == Success(JInt(user.id))
    ensures AuthenticateUser(db, user.email, other, hasher, codec, now)
         == Failure(HttpError(HTTP_401_UNAUTHORIZED, BadCredentials))
  {
    TokenRoundTrip(codec, user.email, user.id, None, now, later);
  }

  /** `get_user_by_id`. */
  function GetUserById(db: Db, userId: int): (r: Option<User>)
    reads db
    ensures r.Some? <==> HasUser(db.users, userId)
    ensures r.Some? ==> r.value in db.users && r.value.id == userId
  {
    FindUserById(db.users, userId)
  }

  /** `get_user_by_email`. */
  function GetUserByEmail(db: Db, email: string): (r: Option<User>)
    reads db
    ensures r.Some? ==> r.value in db.users && r.value.email == email
    ensures r.None? <==> forall u :: u in db.users ==> u.email != email
  {
    FindUserByEmail(db.users, email)
  }

  /** `check_user_exists`: true exactly when `get_user_by_id` finds a user. */
  function CheckUserExists(db: Db, userId: int): (r: bool)
    reads db
    ensures r <==> GetUserById(db, userId).Some?
    ensures r <==> exists i :: 0 <= i < |db.users| && db.users[i].id == userId
  {
    FindUserById(db.users, userId) != None
  }
}
