/** The post service: writes go to the posts table and then invalidate the
    author's cache entry; the listing reads through the cache. All calls see
    one clock, `now`, which stamps new rows and drives the cache's TTL. */
module PostService {
  import opened Wrappers
  import opened Errors
  import opened Models
  import opened Tables
  import opened Cache
  import PostSchemas

  /** The confirmation `delete_post` returns. */
  const DELETE_MESSAGE := "Пост успішно видалено"

  /** Every live cache entry is the list the listing query would compute now
      for the user whose key it sits under. */
  ghost predicate Coherent(store: map<string, Entry>, ttl: nat, posts: seq<Post>, now: int) {
    forall k :: k in store && Live(store[k], ttl, now) ==>
      k == PostsKey(store[k].userId) && store[k].posts == PostsByOwner(posts, store[k].userId)
  }

  /** An entry that is live later was live earlier, so coherence survives
      the passage of time while the table does not change. */
  lemma CoherentLater(store: map<string, Entry>, ttl: nat, posts: seq<Post>, now: int, later: int)
    requires Coherent(store, ttl, posts, now) && now <= later
    ensures Coherent(store, ttl, posts, later)
  {
  }

  /** With coherence, a cache hit is exactly the fresh query result: one
      user's cached list is never returned for another. */
  lemma CachedReadIsFresh(store: map<string, Entry>, ttl: nat, posts: seq<Post>, u: int, now: int)
    requires Coherent(store, ttl, posts, now)
    requires Lookup(store, ttl, PostsKey(u), now).Some?
    ensures Lookup(store, ttl, PostsKey(u), now).value == PostsByOwner(posts, u)
    ensures forall p :: p in Lookup(store, ttl, PostsKey(u), now).value ==> p.userId == u
  {
    var k := PostsKey(u);
    CacheKeyInjective(u, store[k].userId, POSTS_PREFIX);
  }

  /** Inserting a post of `u` and invalidating `u`'s entry keeps coherence. */
  lemma CoherentAfterInsert(store: map<string, Entry>, ttl: nat, posts: seq<Post>, p: Post, now: int)
    requires Coherent(store, ttl, posts, now)
    ensures Coherent(Invalidated(store, ttl, PostsKey(p.userId), now), ttl, posts + [p], now)
  {
    var after := Invalidated(store, ttl, PostsKey(p.userId), now);
    forall k | k in after && Live(after[k], ttl, now)
      ensures k == PostsKey(after[k].userId) && after[k].posts == PostsByOwner(posts + [p], after[k].userId)
    {
      var v := after[k].userId;
      if v == p.userId {
        assert false;
      }
      PostsByOwnerAfterInsert(posts, p, v);
    }
  }

  /** Deleting a post of `u` and invalidating `u`'s entry keeps coherence. */
  lemma CoherentAfterRemove(store: map<string, Entry>, ttl: nat, posts: seq<Post>, i: nat, now: int)
    requires Coherent(store, ttl, posts, now) && i < |posts|
    ensures Coherent(Invalidated(store, ttl, PostsKey(posts[i].userId), now), ttl, posts[..i] + posts[i + 1..], now)
  {
    var u := posts[i].userId;
    var after := Invalidated(store, ttl, PostsKey(u), now);
    forall k | k in after && Live(after[k], ttl, now)
      ensures k == PostsKey(after[k].userId) && after[k].posts == PostsByOwner(posts[..i] + posts[i + 1..], after[k].userId)
    {
      var v := after[k].userId;
      if v == u {
        assert false;
      }
      PostsByOwnerAfterRemove(posts, i, v);
    }
  }

  /** Appending a row with the next id, valid text and an existing author
      keeps the table's invariant. */
  lemma ValidAfterAppend(db: Db, p: Post)
    requires db.Valid()
    requires p.id == db.nextPostId && PostSchemas.ValidPostText(p.text) && HasUser(db.users, p.userId)
    ensures var s := db.posts + [p];
      && (forall j :: 0 <= j < |s| ==> 0 < s[j].id < db.nextPostId + 1)
      && (forall j, k :: 0 <= j < k < |s| ==> s[j].id < s[k].id)
      && (forall j :: 0 <= j < |s| ==> PostSchemas.ValidPostText(s[j].text))
      && (forall j :: 0 <= j < |s| ==> HasUser(db.users, s[j].userId))
  {
  }

  /** Removing one row keeps the table's invariant. */
  lemma ValidAfterRemove(db: Db, i: nat)
    requires db.Valid() && i < |db.posts|
    ensures var rest := db.posts[..i] + db.posts[i + 1..];
      && (forall j :: 0 <= j < |rest| ==> 0 < rest[j].id < db.nextPostId)
      && (forall j, k :: 0 <= j < k < |rest| ==> rest[j].id < rest[k].id)
      && (forall j :: 0 <= j < |rest| ==> PostSchemas.ValidPostText(rest[j].text))
      && (forall j :: 0 <= j < |rest| ==> HasUser(db.users, rest[j].userId))
      && (forall j :: 0 <= j < |rest| ==> rest[j].id != db.posts[i].id)
  {
    var s := db.posts;
    var rest := s[..i] + s[i + 1..];
    assert forall j :: 0 <= j < |rest| ==> rest[j] == if j < i then s[j] else s[j + 1];
  }

  /** `create_post`: the author must exist; the post is inserted with the
      next id and the author's cache entry is invalidated. `text` is within
      the byte limit, as everything `PostCreate` accepts is; `commitOk` says
      whether the commit succeeds, and a failed commit is rolled back. */
  method CreatePost(db: Db, cache: PostsCache, text: string, userId: int, now: int, commitOk: bool)
    returns (r: Result<Post, HttpError>)
    requires db.Valid() && cache.Valid()
    requires PostSchemas.ValidPostText(text)
    modifies db, cache
    ensures db.Valid() && cache.Valid()
    ensures !HasUser(old(db.users), userId) ==>
              r == Failure(HttpError(HTTP_404_NOT_FOUND, UserNotFound)) && unchanged(db) && unchanged(cache)
    ensures HasUser(old(db.users), userId) && !commitOk ==>
              r == Failure(HttpError(HTTP_500_INTERNAL_SERVER_ERROR, PostCreateFailed)) && unchanged(db) && unchanged(cache)
    ensures HasUser(old(db.users), userId) && commitOk ==>
              && r == Success(Post(old(db.nextPostId), text, userId, now, now))
              && db.posts == old(db.posts) + [r.value]
              && db.users == old(db.users)
              && db.nextPostId == old(db.nextPostId) + 1 && db.nextUserId == old(db.nextUserId)
              && cache.store == Invalidated(old(cache.store), cache.ttl, PostsKey(userId), now)
    ensures r.Success? ==> PostSchemas.ValidatePostResponse(r.value).Success?
    ensures Coherent(old(cache.store), cache.ttl, old(db.posts), now) ==> Coherent(cache.store, cache.ttl, db.posts, now)
  {
    var user := FindUserById(db.users, userId);
    if user.None? {
      return Failure(HttpError(HTTP_404_NOT_FOUND, UserNotFound));
    }
    var post := Post(db.nextPostId, text, userId, now, now);
    if !commitOk {
      return Failure(HttpError(HTTP_500_INTERNAL_SERVER_ERROR, PostCreateFailed));
    }
    ValidAfterAppend(db, post);
    if Coherent(cache.store, cache.ttl, db.posts, now) {
      CoherentAfterInsert(cache.store, cache.ttl, db.posts, post, now);
    }
    db.posts := db.posts + [post];
    db.nextPostId := db.nextPostId + 1;
    cache.InvalidateUserPosts(userId, now);
    r := Success(post);
  }

  /** `get_user_posts`: a live cache entry is returned as it is; otherwise
      the user's posts are read newest first and stored in the cache. */
  method GetUserPosts(db: Db, cache: PostsCache, userId: int, now: int) returns (posts: seq<Post>)
    requires db.Valid() && cache.Valid()
    modifies cache
    ensures cache.Valid()
    ensures Lookup(old(cache.store), cache.ttl, PostsKey(userId), now).Some? ==>
              posts == Lookup(old(cache.store), cache.ttl, PostsKey(userId), now).value && unchanged(cache)
    ensures Lookup(old(cache.store), cache.ttl, PostsKey(userId), now).None? ==>
              && posts == PostsByOwner(db.posts, userId)
              && StoredAfterSet(old(cache.store), cache.store, PostsKey(userId), Entry(posts, now, userId),
                                cache.ttl, cache.maxsize, now)
    ensures Coherent(old(cache.store), cache.ttl, db.posts, now) ==>
              posts == PostsByOwner(db.posts, userId) && Coherent(cache.store, cache.ttl, db.posts, now)
  {
    var cached := cache.GetUserPosts(userId, now);
    if cached.Some? {
      if Coherent(cache.store, cache.ttl, db.posts, now) {
        CachedReadIsFresh(cache.store, cache.ttl, db.posts, userId, now);
      }
      return cached.value;
    }
    posts := PostsByOwner(db.posts, userId);
    cache.SetUserPosts(userId, posts, now);
  }

  /** `get_post_by_id`: the post with this id, provided `userId` owns it. */
  function GetPostById(db: Db, postId: int, userId: int): (r: Option<Post>)
    reads db
    ensures r.Some? ==> r.value in db.posts && r.value.id == postId && r.value.userId == userId
    ensures r.None? <==> forall p :: p in db.posts ==> !(p.id == postId && p.userId == userId)
  {
    match IndexOfOwnedPost(db.posts, postId, userId)
    case None => None
    case Some(i) => Some(db.posts[i])
  }

  /** `check_post_ownership`: whether `get_post_by_id` finds the post. */
  function CheckPostOwnership(db: Db, postId: int, userId: int): (r: bool)
    reads db
    ensures r <==> GetPostById(db, postId, userId).Some?
    ensures r <==> exists p :: p in db.posts && p.id == postId && p.userId == userId
  {
    IndexOfOwnedPost(db.posts, postId, userId).Some?
  }

  /** `delete_post`: only a post with this id owned by `userId` is deleted;
      the author's cache entry is then invalidated. */
  method DeletePost(db: Db, cache: PostsCache, postId: int, userId: int, now: int, commitOk: bool)
    returns (r: Result<PostSchemas.PostDeleteResponse, HttpError>)
    requires db.Valid() && cache.Valid()
    modifies db, cache
    ensures db.Valid() && cache.Valid()
    ensures IndexOfOwnedPost(old(db.posts), postId, userId).None? ==>
              r == Failure(HttpError(HTTP_404_NOT_FOUND, PostNotFoundOrNotOwned)) && unchanged(db) && unchanged(cache)
    ensures IndexOfOwnedPost(old(db.posts), postId, userId).Some? && !commitOk ==>
              r == Failure(HttpError(HTTP_500_INTERNAL_SERVER_ERROR, PostDeleteFailed)) && unchanged(db) && unchanged(cache)
    ensures IndexOfOwnedPost(old(db.posts), postId, userId).Some? && commitOk ==>
              var i := IndexOfOwnedPost(old(db.posts), postId, userId).value;
              && r == Success(PostSchemas.PostDeleteResponse(DELETE_MESSAGE, postId))
              && db.posts == old(db.posts)[..i] + old(db.posts)[i + 1..]
              && db.users == old(db.users)
              && db.nextPostId == old(db.nextPostId) && db.nextUserId == old(db.nextUserId)
              && cache.store == Invalidated(old(cache.store), cache.ttl, PostsKey(userId), now)
    ensures r.Success? ==> (forall p :: p in db.posts ==> p.id != postId)
    ensures r.Success? ==> PostSchemas.ValidateDeleteResponse(r.value.message, r.value.postId).Success?
    ensures Coherent(old(cache.store), cache.ttl, old(db.posts), now) ==> Coherent(cache.store, cache.ttl, db.posts, now)
  {
    var found := IndexOfOwnedPost(db.posts, postId, userId);
    if found.None? {
      return Failure(HttpError(HTTP_404_NOT_FOUND, PostNotFoundOrNotOwned));
    }
    if !commitOk {
      return Failure(HttpError(HTTP_500_INTERNAL_SERVER_ERROR, PostDeleteFailed));
    }
    var i := found.value;
    ValidAfterRemove(db, i);
    if Coherent(cache.store, cache.ttl, db.posts, now) {
      CoherentAfterRemove(cache.store, cache.ttl, db.posts, i, now);
    }
    db.posts := db.posts[..i] + db.posts[i + 1..];
    cache.InvalidateUserPosts(userId, now);
    r := Success(PostSchemas.PostDeleteResponse(DELETE_MESSAGE, postId));
  }

  /** The dictionary `get_post_stats` returns. */
  datatype PostStats = PostStats(userId: int, totalPosts: nat, cacheInfo: CacheInfo)

  /** `get_post_stats`: the number of the user's posts and the cache report;
      it changes neither the table nor the cache. */
  function GetPostStats(db: Db, cache: PostsCache, userId: int, now: int): (r: PostStats)
    reads db, cache
    requires cache.Valid()
    ensures r.userId == userId
    ensures r.totalPosts == |PostsByOwner(db.posts, userId)|
    ensures r.totalPosts <= |db.posts|
    ensures r.cacheInfo.size == |LiveKeys(cache.store, cache.ttl, now)| <= cache.maxsize
    ensures r.cacheInfo.maxsize == cache.maxsize && r.cacheInfo.ttl == cache.ttl
  {
    var mine := OwnedBy(db.posts, userId);
    assert |multiset(PostsByOwner(db.posts, userId))| == |multiset(mine)|;
    PostStats(userId, |mine|, cache.GetCacheInfo(now))
  }

  /** The first post of a user is the whole of that user's listing. */
  lemma ListingOfFirstPost(posts: seq<Post>, p: Post)
    requires OwnedBy(posts, p.userId) == []
    ensures PostsByOwner(posts + [p], p.userId) == [p]
  {
    ListingOfFirstPostOwned(posts, p);
  }

  /** Two posts by one user, the second created later, are listed second
      first. */
  lemma ListingOfTwoPosts(posts: seq<Post>, a: Post, b: Post)
    requires OwnedBy(posts, a.userId) == [] && b.userId == a.userId
    requires a.createdAt < b.createdAt
    ensures PostsByOwner(posts + [a] + [b], a.userId) == [b, a]
  {
    OwnedOfTwoPosts(posts, a, b);
    SortTwoPosts(a, b);
  }

  lemma OwnedOfTwoPosts(posts: seq<Post>, a: Post, b: Post)
    requires OwnedBy(posts, a.userId) == [] && b.userId == a.userId
    ensures OwnedBy(posts + [a] + [b], a.userId) == [a, b]
  {
    var u := a.userId;
    OwnedByAppend(posts + [a], [b], u);
    ListingOfFirstPostOwned(posts, a);
    OwnedOfOne(b);
  }

  lemma ListingOfFirstPostOwned(posts: seq<Post>, p: Post)
    requires OwnedBy(posts, p.userId) == []
    ensures OwnedBy(posts + [p], p.userId) == [p]
  {
    OwnedByAppend(posts, [p], p.userId);
    OwnedOfOne(p);
  }

  lemma OwnedOfOne(p: Post)
    ensures OwnedBy([p], p.userId) == [p]
  {
    assert [p][1..] == [];
  }

  lemma SortTwoPosts(a: Post, b: Post)
    requires a.createdAt < b.createdAt
    ensures SortNewestFirst([a, b]) == [b, a]
  {
    assert [a, b][1..] == [b];
    assert [b][1..] == [];
    assert SortNewestFirst([b]) == InsertNewestFirst(b, []) == [b];
    assert InsertNewestFirst(a, [b]) == [b] + InsertNewestFirst(a, []);
  }

  /** A post is found only under its own author: another user's
      `delete_post` or `get_post_by_id` for its id finds nothing. */
  lemma ForeignPostNotFound(db: Db, i: nat, u: int)
    requires db.Valid() && i < |db.posts| && db.posts[i].userId != u
    ensures IndexOfOwnedPost(db.posts, db.posts[i].id, u).None?
    ensures GetPostById(db, db.posts[i].id, u).None?
  {
  }
}
