# Authenticated post access, modelled in Dafny

This project models the authenticated post-access path of a small FastAPI
blogging backend. It covers six parts.

- **Post cache.** A per-user post cache: one process-wide TTL cache of 1000
  entries with a 300-second lifetime, keyed by `"posts:<user id>"`.
- **Post service.** It writes to the posts table and then invalidates the
  author's cache entry. Its listing reads through the cache.
- **User service.** Signup refuses a registered email. Login gives one 401 for
  an unknown email and for a wrong password.
- **Tokens.** Access tokens have a 30-minute default lifetime. Verification
  checks that the `sub` and `user_id` claims are present.
- **Request dependencies.** These turn a bearer token into a user id or a
  user row. The optional form turns every failure into "no user".
- **Request schemas.** These validate post text size, password strength and
  positive ids in responses.

Modules:

| module | file | models |
|---|---|---|
| `Wrappers` | wrappers.dfy | `Option` and `Result` |
| `Errors` | errors.dfy | the `HTTPException`s the core raises, and the JWT library's failures |
| `Models` | models.dfy | the `users` and `posts` rows |
| `IntText` | int_text.dfy | decimal text of integers, as written by f-strings |
| `Cache` | cache.dfy | `utils/cache.py` |
| `Tables` | tables.dfy | the two tables and the queries run on them |
| `PostSchemas` | post_schemas.dfy | `schemas/post.py` |
| `UserSchemas` | user_schemas.dfy | `schemas/user.py` |
| `Auth` | auth.dfy | `utils/auth.py` |
| `Dependencies` | dependencies.dfy | `utils/dependencies.py` |
| `UserService` | user_service.dfy | `services/user_service.py` |
| `PostService` | post_service.dfy | `services/post_service.py` |

How state and outside parts are represented:

- **The cache** is a class, `Cache.PostsCache`. It holds a map from key to
  entry, and its methods update that map in place.
- **Expiry** follows the TTL cache library:
  - an entry stored at time `t` is live while the timer reads less than
    `t + ttl`;
  - a membership test treats an expired entry as absent, so an invalidation
    leaves an expired entry where it is;
  - a store first drops expired entries, then evicts one entry if the cache is
    still full and the key is new. The model does not say which entry.
- **The database session** is a class, `Tables.Db`. It holds the two tables
  and the next ids to issue.
- **Commits.** Whether a commit succeeds is a boolean parameter. A failed
  commit leaves both the tables and the cache unchanged.
- **Time** is an integer parameter counted in seconds. One clock stamps new
  rows, runs the cache's TTL and checks token expiry.
- **JWT** is a value `Auth.Codec` of two functions. The round-trip property
  the code relies on is the predicate `Auth.SoundCodec`: decoding an encoded
  payload gives it back until `exp` has passed.
- **bcrypt** is a value `Auth.Hasher` of two functions, with the salt made
  explicit. `Auth.SoundHasher` states that a password verifies against its
  own hash and never against another password's hash.

The central invariant is `PostService.Coherent`. It says every live cache
entry equals what the listing query would return now for the user whose key
it is stored under. Each of these keeps the invariant:

- `CreatePost` (insert, then invalidate);
- `DeletePost` (delete, then invalidate);
- `GetUserPosts` on a miss (query, then store);
- the passage of time.

While the invariant holds, a cache hit is the fresh query result
(`PostService.CachedReadIsFresh`).

## Model

| member | source | states |
|---|---|---|
| `Cache.MakeCacheKey` | utils/cache.py:24-39 | the key is the prefix, a colon, then the user id |
| `Cache.MakeCacheKeyExample` | utils/cache.py:36-37 | user 123's key is "posts:123" |
| `IntText.DecimalInjective` | utils/cache.py:39 | two integers with the same decimal text are equal: the text read back is the integer |
| `Cache.CacheKeyInjective` | utils/cache.py:24-39 | distinct user ids give distinct keys under one prefix |
| `Cache.PostsCache.constructor` | utils/cache.py:12-14 | the cache starts empty, with capacity 1000 and TTL 300 |
| `Cache.PostsCache.GetUserPosts` | utils/cache.py:57-65 | returns the stored list when the user's entry exists and is live, otherwise nothing |
| `Cache.PostsCache.SetUserPosts` | utils/cache.py:80-87 | the user's key now holds the new list, stamped now; at most 1000 entries; every other surviving entry is unchanged and live; at most one other live entry is lost, and only when the cache was full of live entries and the key was new |
| `Cache.PostsCache.InvalidateUserPosts` | utils/cache.py:103-109 | deletes the user's entry if a membership test sees it (present and live); otherwise nothing changes |
| `Cache.PostsCache.GetCacheInfo` | utils/cache.py:123-126 | size is the number of live entries and never exceeds maxsize; reports capacity and TTL; reads only |
| `Cache.PostsCache.ClearCache` | utils/cache.py:140 | the cache is empty and every read misses |
| `Cache.GetAfterSet` | utils/cache.py:80-87 | after a store, the user's read returns exactly the stored list until the TTL runs out, then nothing |
| `Cache.SetIsolation` | utils/cache.py:87 | storing one user's list leaves another user's read unchanged, unless a full cache evicted that user's entry |
| `Cache.GetAfterInvalidate` | utils/cache.py:103-106 | after an invalidation, the user's reads miss from then on |
| `Cache.InvalidateIdempotent` | utils/cache.py:105-109 | invalidating twice is the same as invalidating once |
| `Cache.InvalidateIsolation` | utils/cache.py:103-106 | invalidating one user's entry never changes another user's read |
| `PostSchemas.Utf8Length` | schemas/post.py:43 | the UTF-8 length is between one and four bytes per character |
| `PostSchemas.ValidatePostCreateText` | schemas/post.py:20-51 | accepts exactly the non-empty text whose encoded size plus the 33-byte object header is at most 1 MiB; returns the text unchanged; empty text fails with the `min_length` error |
| `PostSchemas.AsciiTextLimit` | schemas/post.py:43-49 | ASCII text passes exactly when it has 1 to 1,048,543 characters |
| `PostSchemas.OversizedAsciiRejected` | schemas/post.py:43-47 | 1,048,577 ASCII characters are refused |
| `PostSchemas.ValidatePostTextBytes` | schemas/post.py:43-46 | the corrected rule: accepts exactly the non-empty text of at most 1 MiB of UTF-8 |
| `PostSchemas.AcceptedTextIsValid` | schemas/post.py:43-51 | everything the validator accepts satisfies the corrected byte rule |
| `PostSchemas.HeaderCountsAgainstLimit` | schemas/post.py:43-46 | 1,048,544 ASCII characters are within 1 MiB and pass the byte rule, yet the validator refuses them |
| `PostSchemas.AsciiByteLimit` | schemas/post.py:43-46 | under the byte rule, ASCII text passes exactly up to 1,048,576 characters |
| `PostSchemas.ValidatePostUpdateText` | schemas/post.py:62-96 | absent text passes unchanged; present text passes or fails exactly as in `PostCreate`, with the same error |
| `PostSchemas.ValidatePostResponse` | schemas/post.py:111-121 | a post response is valid exactly when `id` and `user_id` are both positive; a failure names each offending field and only those |
| `PostSchemas.ValidateDeleteResponse` | schemas/post.py:150-158 | a delete response is valid exactly when `post_id` is positive, and it keeps the message and id |
| `UserSchemas.CheckLength` | schemas/user.py:25-31 | passes exactly when the length is within the bounds, and returns the password unchanged |
| `UserSchemas.ValidateSignupPassword` | schemas/user.py:25-56 | accepts exactly passwords of 8 to 100 characters with a digit and an uppercase ASCII letter; the letter error, digit error and uppercase error each occur exactly when that check is the first to fail |
| `UserSchemas.ExamplePasswords` | schemas/user.py:25-56 | the example passwords "Password123", "MySecurePassword123", "DemoPassword123" and "TestPassword123" all pass |
| `UserSchemas.FailingPasswords` | schemas/user.py:48-56 | one failing password per error, each getting the error of the first check it fails: "password123" (uppercase), "Password" (digit), "12345678" (letter), "Pass1" (length) |
| `UserSchemas.ValidateLoginPassword` | schemas/user.py:72-78 | a login password only needs 1 to 100 characters |
| `UserSchemas.SignupPasswordPassesLogin` | schemas/user.py:72-78 | every acceptable signup password is an acceptable login password |
| `Tables.FindUserById` | services/user_service.py:134 | finds a user exactly when one with that id exists, and returns that user |
| `Tables.FindUserByEmail` | services/user_service.py:153 | returns a user with that email, or nothing when no user has it |
| `Tables.OwnedBy` | services/post_service.py:95-97 | holds exactly the user's rows, each as many times as it occurs in the table, and no other row |
| `Tables.InsertNewestFirst` | services/post_service.py:98 | inserting into a newest-first list keeps it newest first and adds exactly the one post |
| `Tables.SortNewestFirst` | services/post_service.py:98 | the result is newest first and a permutation of the input |
| `Tables.PostsByOwner` | services/post_service.py:95-100 | the listing is newest first, a permutation of the user's posts, and contains exactly the user's posts |
| `Tables.PostsByOwnerAfterInsert` | services/post_service.py:54-59 | adding another user's post leaves a user's listing unchanged |
| `Tables.PostsByOwnerAfterRemove` | services/post_service.py:175-176 | removing another user's post leaves a user's listing unchanged |
| `Tables.IndexOfOwnedPost` | services/post_service.py:131-135 | finds a row with this id and owner, or none exists |
| `Auth.Get` | utils/auth.py:126-127 | a claim reads as present exactly when it exists and is not null, and then it is the payload's value |
| `Auth.ExpiryTime` | utils/auth.py:88-93 | `exp` is now plus the delta for a non-zero delta; otherwise now plus 30 minutes, including a zero delta |
| `Auth.CreateAccessToken` | utils/auth.py:69-99 | with a sound codec, the token decodes at every time exactly as the caller's claims plus the computed `exp` do: the claims until `exp`, an expired-signature failure after it |
| `Auth.ClaimsToEncode` | utils/auth.py:85-95 | the encoded claims are the caller's claims plus `exp`, and every other claim is kept |
| `Auth.VerifyToken` | utils/auth.py:121-143 | succeeds exactly when decoding succeeds and the payload has `sub` and `user_id`; then it returns the payload unchanged; every decode failure becomes a 401 carrying the cause; every failure is a 401 |
| `Auth.ExtractUserIdFromToken` | utils/auth.py:165-175 | succeeds exactly when verification does, returns the `user_id` claim, and every failure is a 401 |
| `Auth.TokenRoundTrip` | utils/auth.py:159-175 | until it expires, a token made from login claims verifies to those claims plus `exp`, and yields the user id |
| `Auth.ExpiredTokenRejected` | utils/auth.py:138-143 | after its `exp`, every token is refused with a 401 for an expired signature |
| `Auth.OneSecondTokenExpires` | utils/auth.py:88-89 | a token with a one-second lifetime is refused two seconds later |
| `Auth.MissingClaimRejected` | utils/auth.py:126-134 | a live token lacking `sub` or `user_id` is refused with the missing-fields 401 |
| `Dependencies.GetCurrentUserId` | utils/dependencies.py:39-40 | succeeds exactly when the token verifies, returns its `user_id` claim, and propagates the 401 |
| `Dependencies.GetCurrentUser` | utils/dependencies.py:65-73 | a token failure propagates; a valid token yields the user with that id, and a 404 exactly when no such user exists |
| `Dependencies.ValidateTokenOnly` | utils/dependencies.py:97-98 | returns the decoded payload, which has `sub` and `user_id`; it fails with a 401 exactly when the user-id dependency would |
| `Dependencies.OptionalAuthentication` | utils/dependencies.py:123-131 | no credentials give nothing; otherwise it gives a user id exactly when the user-id dependency succeeds, and that same id; it never fails |
| `Dependencies.LoginTokenAuthenticates` | utils/dependencies.py:39-40 | a live login token authenticates as its account, with or without optional authentication |
| `UserService.CreateUser` | services/user_service.py:43-69 | a registered email gives the 400 and nothing changes; a failed commit gives the conflict 400 and nothing changes; otherwise it appends one user with the next id, the email and the hash of the password, and posts are untouched; the table invariant is kept |
| `UserService.AuthenticateUser` | services/user_service.py:93-115 | succeeds exactly when the email is registered and the password verifies against the stored hash; every failure is the same 401; success returns a bearer token over `{sub: email, user_id: id}` |
| `UserService.LoginAfterSignup` | services/user_service.py:103-115 | the signup password logs in and the token yields the user id until it expires; any other password gets the same 401 as an unknown email |
| `UserService.GetUserById` | services/user_service.py:134 | finds the user exactly when one with that id exists |
| `UserService.GetUserByEmail` | services/user_service.py:153 | returns a user with that email, or nothing exactly when none has it |
| `UserService.CheckUserExists` | services/user_service.py:171-172 | true exactly when `get_user_by_id` finds a user |
| `PostService.CoherentLater` | utils/cache.py:14 | coherence survives the passage of time while the table is unchanged |
| `PostService.CachedReadIsFresh` | services/post_service.py:90-92 | while coherent, a cache hit equals the fresh listing and holds only the caller's posts |
| `PostService.CoherentAfterInsert` | services/post_service.py:56-62 | inserting a post and invalidating its author's entry keeps coherence |
| `PostService.CoherentAfterRemove` | services/post_service.py:173-179 | deleting a post and invalidating its author's entry keeps coherence |
| `PostService.CreatePost` | services/post_service.py:46-71 | takes text within the byte limit, which `PostSchemas.AcceptedTextIsValid` shows all accepted text is; unknown author: 404, nothing changes; failed commit: 500, nothing changes; otherwise one post with the next id, the text and the author is appended, users are untouched, the author's entry is invalidated, the response validates, and table invariant and coherence are kept |
| `PostService.GetUserPosts` | services/post_service.py:90-109 | a hit returns the cached list and changes nothing; a miss returns the user's posts newest first and stores that same list; while coherent, the result is always the fresh listing and coherence is kept |
| `PostService.GetPostById` | services/post_service.py:131-135 | returns a post with that id owned by that user, or nothing exactly when none exists |
| `PostService.CheckPostOwnership` | services/post_service.py:233-238 | true exactly when `get_post_by_id` finds the post, that is, when the user owns a post with that id |
| `PostService.DeletePost` | services/post_service.py:161-190 | no post with this id and owner: 404, nothing changes; failed commit: 500, nothing changes; otherwise exactly that row is removed, no post with the id remains, the author's entry is invalidated, the response carries the id and validates, and table invariant and coherence are kept |
| `PostService.GetPostStats` | services/post_service.py:208-214 | total posts is the number of the user's rows, which is the length of the user's listing; the cache report gives live size, capacity and TTL; reads only |
| `PostService.ListingOfFirstPost` | services/post_service.py:95-100 | a user's first post is that user's whole listing |
| `PostService.ListingOfTwoPosts` | services/post_service.py:95-100 | two posts created one after the other are listed newest first |
| `PostService.ForeignPostNotFound` | services/post_service.py:161-171 | a post is never found under a user who does not own it, so no other user can delete or read it |

## Left out

- Configuration from the environment is not modelled: the secret key, the algorithm, and the expiry minutes are fixed at their defaults (30 minutes).
- `Auth.MissingClaimRejected`: the decoder is assumed to check only `exp` (`Auth.DecodeOfEncoded`). The JWT library also checks the types of other registered claims, such as a `sub` that is not a string. Such a token fails there with a claims error instead of the missing-fields error, still as a 401; those checks are not modelled.
- JWT signing and bcrypt are functions supplied by the caller, constrained only by `Auth.SoundCodec` and `Auth.SoundHasher`. bcrypt's 72-byte truncation and signature forgery are not modelled.
- The `hits`, `misses` and `current_time` fields of `get_cache_info` are left out. They are library attributes and the clock.
- The entry's `cached_at` timestamp and the cache's own timer are one clock. The wall clock and the monotonic timer are not told apart.
- `Cache.PostsCache.SetUserPosts`: does not say which live entry a full cache evicts. The library picks the least recently used one; the model only bounds the loss to one entry.
- `Cache.PostsCache.GetCacheInfo`: the size is the count of live entries. The library also drops the expired ones physically at that moment, and the model leaves them in place.
- Concurrency of handlers sharing the cache is not modelled. Operations run one after another, so the window between a commit and its invalidation never shows.
- `UserSchemas.ValidateSignupPassword`: the digit check accepts ASCII digits only. Python's `\d` also matches other Unicode decimal digits.
- `EmailStr` validation of emails is a library check and is not modelled. Emails are plain strings.
- `UserService.CreateUser`: only the integrity error on commit is modelled. Other database exceptions propagate in the source and are not modelled.
- `PostService.CreatePost` and `PostService.DeletePost`: every commit failure is one case. The source also puts the text of the exception into the 500's detail; the model keeps only the kind of error.
- `Tables.SortNewestFirst`: posts with equal `created_at` keep table order. The database leaves that order unspecified.
- `Dependencies.GetCurrentUser`: a `user_id` claim that is not an integer matches no user and gives the 404. The database's coercion of such a value is not modelled.
- The bearer-scheme extraction that answers a missing header with 403 is not modelled. Dependencies take the token string, and the optional form takes an optional token.
- The update of posts is not modelled. The service has no update operation; only the `PostUpdate` validator is modelled.
- Cascade deletion of a user's posts, the routing layer, application startup, the health check and print logging are not modelled.
- `PostService.CreatePost`: ids come from a counter that never reuses a value, and the table invariant forbids reuse. The default SQLite engine, with its plain integer primary keys, gives a new row the largest id in the table plus one. So after the newest post is deleted, the next post gets that id again, and a client holding the old id would find the new post. The model cannot express this.
- `UserService.CreateUser`: the same holds for user ids, which the model also draws from a never-reused counter.
- `PostSchemas.ValidatePostCreateText`: a Python string may hold lone surrogates, which a Dafny `char` cannot. UTF-8 encoding of such text raises in the validator and the request is refused as invalid; the model has no such input.
- `PostSchemas.ValidatePostCreateText` follows the code, not the stated limit of 1 MiB of text. The code counts the 33-byte header of the bytes object; see Findings.

## Findings

| source | as written | input that shows it | evidently intended | confidence | as-written member | corrected member |
|---|---|---|---|---|---|---|
| schemas/post.py:43-46 | the size compared with 1 MiB is `sys.getsizeof` of the encoded text, which adds the 33-byte bytes-object header | a post of 1,048,544 ASCII characters (1,048,544 bytes, under 1 MiB) is refused | text is refused only when its UTF-8 encoding exceeds 1 MiB | medium, not executed | `PostSchemas.ValidatePostCreateText` (`PostSchemas.HeaderCountsAgainstLimit`) | `PostSchemas.ValidatePostTextBytes` (`PostSchemas.AsciiByteLimit`, `PostSchemas.AcceptedTextIsValid`) |
