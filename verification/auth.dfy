/** Access tokens and passwords. The JWT library and bcrypt are not
    modelled: each is a value of functions passed in (Codec, Hasher), and the
    properties the code relies on are stated as predicates over them
    (SoundCodec, SoundHasher) that the lemmas needing them assume. Times are
    whole seconds since the epoch. */
module Auth {
  import opened Wrappers
  import opened Errors

  /** The default lifetime of an access token. */
  const ACCESS_TOKEN_EXPIRE_MINUTES: int := 30
  const SECONDS_PER_MINUTE: int := 60

  /** The JSON values that occur in a token payload. */
  datatype Json = JNull | JStr(s: string) | JInt(i: int)

  /** A token payload: the decoded JSON object. */
  type Claims = map<string, Json>

  /** `jwt.encode` with the secret key, and `jwt.decode` at a given time. */
  datatype Codec = Codec(encode: Claims -> string, decode: (string, int) -> Result<Claims, JwtError>)

  /** What `jwt.decode` at time `now` yields for a token that `jwt.encode`
      made from `claims`: the claims themselves, unless `exp` is in the past
      (expired) or is not a number. */
  function DecodeOfEncoded(claims: Claims, now: int): Result<Claims, JwtError> {
    if "exp" !in claims then Success(claims)
    else match claims["exp"]
      case JInt(exp) => if exp < now then Failure(ExpiredSignature) else Success(claims)
      case _ => Failure(InvalidClaims)
  }

  /** The round-trip property the code relies on: decoding what was encoded
      gives back the claims until they expire. */
  ghost predicate SoundCodec(codec: Codec) {
    forall claims: Claims, now: int :: codec.decode(codec.encode(claims), now) == DecodeOfEncoded(claims, now)
  }

  /** `hash_password` (with the salt bcrypt draws made explicit) and
      `verify_password`. */
  datatype Hasher = Hasher(hash: (string, string) -> string, verify: (string, string) -> bool)

  /** A password verifies against its own hash and never against the hash of
      a different password. */
  ghost predicate SoundHasher(hasher: Hasher) {
    && (forall password, salt :: hasher.verify(password, hasher.hash(password, salt)))
    && (forall password, other, salt :: password != other ==> !hasher.verify(other, hasher.hash(password, salt)))
  }

  /** `payload.get(name)`: an absent claim and a JSON null both read as `None`. */
  function Get(payload: Claims, name: string): (r: Option<Json>)
    ensures r.Some? <==> name in payload && payload[name] != JNull
    ensures r.Some? ==> r.value == payload[name] && r.value != JNull
  {
    if name in payload && payload[name] != JNull then Some(payload[name]) else None
  }

  /** The `exp` of a new token. A delta is used only when it is truthy: an
      absent or zero delta falls back to the default 30 minutes. */
  function ExpiryTime(now: int, expiresDelta: Option<int>): (exp: int)
    ensures expiresDelta.None? ==> exp == now + 30 * 60
    ensures expiresDelta == Some(0) ==> exp == now + 30 * 60
    ensures expiresDelta.Some? && expiresDelta.value != 0 ==> exp == now + expiresDelta.value
  {
    if expiresDelta.Some? && expiresDelta.value != 0 then now + expiresDelta.value
    else now + ACCESS_TOKEN_EXPIRE_MINUTES * SECONDS_PER_MINUTE
  }

  /** `to_encode` in `create_access_token`: a copy of the caller's claims
      with `exp` added (or replaced). */
  function ClaimsToEncode(data: Claims, expiresDelta: Option<int>, now: int): (toEncode: Claims)
    ensures toEncode.Keys == data.Keys + {"exp"}
    ensures toEncode["exp"] == JInt(ExpiryTime(now, expiresDelta))
    ensures forall name :: name in data && name != "exp" ==> toEncode[name] == data[name]
  {
    data["exp" := JInt(ExpiryTime(now, expiresDelta))]
  }

  /** `create_access_token`: with a sound codec, the token decodes at any
      time exactly as the caller's claims plus `exp` do. */
  function CreateAccessToken(codec: Codec, data: Claims, expiresDelta: Option<int>, now: int): (token: string)
    ensures SoundCodec(codec) ==>
              forall later :: codec.decode(token, later) == DecodeOfEncoded(ClaimsToEncode(data, expiresDelta, now), later)
  {
    codec.encode(ClaimsToEncode(data, expiresDelta, now))
  }

  /** `verify_token`: the decoded payload, provided it has `sub` and
      `user_id`; every failure is a 401. */
  function VerifyToken(codec: Codec, token: string, now: int): (r: Result<Claims, HttpError>)
    ensures r.Failure? ==> r.error.status == HTTP_401_UNAUTHORIZED
    ensures codec.decode(token, now).Failure? ==> r == Failure(HttpError(401, InvalidToken(codec.decode(token, now).error)))
    ensures r.Success? <==>
              && codec.decode(token, now).Success?
              && Get(codec.decode(token, now).value, "sub").Some?
              && Get(codec.decode(token, now).value, "user_id").Some?
    ensures r.Success? ==> r.value == codec.decode(token, now).value
  {
    match codec.decode(token, now)
    case Failure(e) => Failure(HttpError(HTTP_401_UNAUTHORIZED, InvalidToken(e)))
    case Success(payload) =>
      if Get(payload, "sub").None? || Get(payload, "user_id").None? then
        Failure(HttpError(HTTP_401_UNAUTHORIZED, MissingRequiredFields))
      else
        Success(payload)
  }

  /** `extract_user_id_from_token`: the `user_id` claim of a verified token. */
  function ExtractUserIdFromToken(codec: Codec, token: string, now: int): (r: Result<Json, HttpError>)
    ensures r.Success? <==> VerifyToken(codec, token, now).Success?
    ensures r.Success? ==> Get(VerifyToken(codec, token, now).value, "user_id") == Some(r.value)
    ensures r.Failure? ==> r.error.status == HTTP_401_UNAUTHORIZED
  {
    var payload :- VerifyToken(codec, token, now);
    match Get(payload, "user_id")
    case None => Failure(HttpError(HTTP_401_UNAUTHORIZED, MissingUserId))
    case Some(userId) => Success(userId)
  }

  /** The claims `authenticate_user` signs for an account. */
  function LoginClaims(email: string, userId: int): Claims {
    map["sub" := JStr(email), "user_id" := JInt(userId)]
  }

  /** Until it expires, a token made from login claims verifies to exactly
      the claims it was made from plus `exp`, and yields the user id. */
  lemma TokenRoundTrip(codec: Codec, email: string, userId: int, expiresDelta: Option<int>, now: int, later: int)
    requires SoundCodec(codec)
    requires later <= ExpiryTime(now, expiresDelta)
    ensures VerifyToken(codec, CreateAccessToken(codec, LoginClaims(email, userId), expiresDelta, now), later)
         == Success(ClaimsToEncode(LoginClaims(email, userId), expiresDelta, now))
    ensures ExtractUserIdFromToken(codec, CreateAccessToken(codec, LoginClaims(email, userId), expiresDelta, now), later)
         == Success(JInt(userId))
  {
    var claims := ClaimsToEncode(LoginClaims(email, userId), expiresDelta, now);
    assert codec.decode(codec.encode(claims), later) == DecodeOfEncoded(claims, later);
    assert Get(claims, "sub") == Some(JStr(email));
    assert Get(claims, "user_id") == Some(JInt(userId));
  }

  /** After its `exp`, any token made by `create_access_token` is refused
      with a 401. */
  lemma ExpiredTokenRejected(codec: Codec, data: Claims, expiresDelta: Option<int>, now: int, later: int)
    requires SoundCodec(codec)
    requires later > ExpiryTime(now, expiresDelta)
    ensures VerifyToken(codec, CreateAccessToken(codec, data, expiresDelta, now), later)
         == Failure(HttpError(HTTP_401_UNAUTHORIZED, InvalidToken(ExpiredSignature)))
    ensures ExtractUserIdFromToken(codec, CreateAccessToken(codec, data, expiresDelta, now), later).Failure?
  {
    var claims := ClaimsToEncode(data, expiresDelta, now);
    assert codec.decode(codec.encode(claims), later) == DecodeOfEncoded(claims, later);
  }

  /** A token issued with a one-second lifetime is refused two seconds later. */
  lemma OneSecondTokenExpires(codec: Codec, email: string, userId: int, now: int)
    requires SoundCodec(codec)
    ensures VerifyToken(codec, CreateAccessToken(codec, LoginClaims(email, userId), Some(1), now), now + 2).Failure?
  {
    ExpiredTokenRejected(codec, LoginClaims(email, userId), Some(1), now, now + 2);
  }

  /** A live token whose claims lack `sub` or `user_id` is refused. */
  lemma MissingClaimRejected(codec: Codec, data: Claims, expiresDelta: Option<int>, now: int, later: int)
    requires SoundCodec(codec)
    requires later <= ExpiryTime(now, expiresDelta)
    requires Get(data, "sub").None? || Get(data, "user_id").None?
    ensures VerifyToken(codec, CreateAccessToken(codec, data, expiresDelta, now), later)
         == Failure(HttpError(HTTP_401_UNAUTHORIZED, MissingRequiredFields))
  {
    var claims := ClaimsToEncode(data, expiresDelta, now);
    assert codec.decode(codec.encode(claims), later) == DecodeOfEncoded(claims, later);
    assert Get(claims, "sub") == Get(data, "sub");
    assert Get(claims, "user_id") == Get(data, "user_id");
  }
}
