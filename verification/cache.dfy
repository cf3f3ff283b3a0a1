/** The per-user post cache: one process-wide TTL cache of at most 1000
    entries that expire 300 seconds after they are stored, keyed by the
    string "posts:<user id>". Expiry follows the TTL cache library: an entry
    stored at time t is live while the timer reads less than t + ttl, a
    membership test treats an expired entry as absent without removing it,
    and storing first drops every expired entry and then, if the cache is
    still full and the key is new, evicts one live entry. */
module Cache {
  import opened Wrappers
  import opened Models
  import IntText

  const MAX_SIZE: nat := 1000
  const TTL_SECONDS: nat := 300
  const POSTS_PREFIX := "posts"

  /** `_make_cache_key`: the prefix, a colon, and the decimal user id. */
  function MakeCacheKey(userId: int, prefix: string): (key: string)
    ensures |key| > |prefix| + 1 && key[..|prefix|] == prefix && key[|prefix|] == ':'
  {
    prefix + ":" + IntText.IntToDecimal(userId)
  }

  /** Keys with one prefix never collide: the key determines the user id. */
  lemma CacheKeyInjective(u: int, v: int, prefix: string)
    requires MakeCacheKey(u, prefix) == MakeCacheKey(v, prefix)
    ensures u == v
  {
    var n := |prefix| + 1;
    assert MakeCacheKey(u, prefix)[n..] == IntText.IntToDecimal(u);
    assert MakeCacheKey(v, prefix)[n..] == IntText.IntToDecimal(v);
    IntText.DecimalInjective(u, v);
  }

  /** The documented example: user 123's key is "posts:123". */
  lemma MakeCacheKeyExample()
    ensures MakeCacheKey(123, POSTS_PREFIX) == "posts:123"
  {
  }

  /** The key under which a user's post list is cached. */
  function PostsKey(userId: int): string {
    MakeCacheKey(userId, POSTS_PREFIX)
  }

  /** What `set_user_posts` stores: the list, when it was cached, and whose
      list it is; `cachedAt` is also the reading from which the TTL runs. */
  datatype Entry = Entry(posts: seq<Post>, cachedAt: int, userId: int)

  /** The `get_cache_info` report, without the library's hit/miss counters. */
  datatype CacheInfo = CacheInfo(size: nat, maxsize: nat, ttl: nat)

  predicate Live(e: Entry, ttl: nat, now: int) {
    now < e.cachedAt + ttl
  }

  /** What a read of `key` at time `now` returns. */
  function Lookup(store: map<string, Entry>, ttl: nat, key: string, now: int): Option<seq<Post>> {
    if key in store && Live(store[key], ttl, now) then Some(store[key].posts) else None
  }

  function LiveKeys(store: map<string, Entry>, ttl: nat, now: int): set<string> {
    set k | k in store && Live(store[k], ttl, now)
  }

  /** The store with every expired entry dropped. */
  function Expire(store: map<string, Entry>, ttl: nat, now: int): (live: map<string, Entry>)
    ensures live.Keys == LiveKeys(store, ttl, now)
    ensures forall k :: k in live ==> live[k] == store[k]
  {
    map k | k in store && Live(store[k], ttl, now) :: store[k]
  }

  /** The store after `invalidate_user_posts`: the key is deleted only when
      the membership test sees it, that is, when its entry is live. */
  function Invalidated(store: map<string, Entry>, ttl: nat, key: string, now: int): map<string, Entry> {
    if key in store && Live(store[key], ttl, now) then store - {key} else store
  }

  /** The relation between the store before and after storing `e` under
      `key` at time `now` in a cache of capacity `maxsize`: `key` now holds
      `e`; every other entry left was already there, unchanged and live; the
      size bound holds; and at most one other live entry was lost, only when
      the live entries already filled the cache and `key` was not among them. */
  ghost predicate StoredAfterSet(before: map<string, Entry>, after: map<string, Entry>, key: string,
                                 e: Entry, ttl: nat, maxsize: nat, now: int)
  {
    && key in after && after[key] == e
    && |after| <= maxsize
    && (forall k :: k in after && k != key ==> k in before && after[k] == before[k] && Live(before[k], ttl, now))
    && var lost := LiveKeys(before, ttl, now) - {key} - after.Keys;
       && |lost| <= 1
       && (lost != {} ==> key !in LiveKeys(before, ttl, now) && |LiveKeys(before, ttl, now)| == maxsize)
  }

  lemma SubsetSize<T>(a: set<T>, b: set<T>)
    requires a <= b
    ensures |a| <= |b|
  {
    assert b == a + (b - a);
    assert a * (b - a) == {};
  }

  /** There are never more live entries than entries. */
  lemma LiveKeysBound(store: map<string, Entry>, ttl: nat, now: int)
    ensures |LiveKeys(store, ttl, now)| <= |store|
  {
    SubsetSize(LiveKeys(store, ttl, now), store.Keys);
  }

  /** Storing without eviction: there was room, or the key was live already. */
  lemma StoreWithoutEviction(before: map<string, Entry>, key: string, e: Entry, ttl: nat, maxsize: nat, now: int)
    requires |before| <= maxsize
    requires key in Expire(before, ttl, now) || |Expire(before, ttl, now)| < maxsize
    ensures StoredAfterSet(before, Expire(before, ttl, now)[key := e], key, e, ttl, maxsize, now)
  {
    var live := Expire(before, ttl, now);
    var after := live[key := e];
    LiveKeysBound(before, ttl, now);
    assert after.Keys == live.Keys + {key};
    assert LiveKeys(before, ttl, now) - {key} - after.Keys == {};
    if key !in live {
      assert |after.Keys| == |live.Keys| + 1;
    } else {
      assert after.Keys == live.Keys;
    }
  }

  /** Storing into a full cache under a new key: one live entry is evicted. */
  lemma StoreAfterEviction(before: map<string, Entry>, victim: string, key: string, e: Entry,
                           ttl: nat, maxsize: nat, now: int)
    requires |before| <= maxsize
    requires key !in Expire(before, ttl, now) && |Expire(before, ttl, now)| >= maxsize
    requires victim in Expire(before, ttl, now)
    ensures StoredAfterSet(before, (Expire(before, ttl, now) - {victim})[key := e], key, e, ttl, maxsize, now)
  {
    var live := Expire(before, ttl, now);
    var after := (live - {victim})[key := e];
    LiveKeysBound(before, ttl, now);
    assert (live - {victim}).Keys == live.Keys - {victim};
    assert after.Keys == live.Keys - {victim} + {key};
    assert |live.Keys - {victim}| == |live.Keys| - 1;
    assert |after.Keys| == |live.Keys|;
    assert LiveKeys(before, ttl, now) - {key} - after.Keys == {victim};
  }

  /** The process-wide `posts_cache` together with the `CacheManager`
      operations on it; `now` is the reading of the cache's timer. */
  class PostsCache {
    const maxsize: nat
    const ttl: nat
    var store: map<string, Entry>

    ghost predicate Valid()
      reads this
    {
      0 < maxsize && |store| <= maxsize
    }

    /** `posts_cache = TTLCache(maxsize=1000, ttl=300)` */
    constructor ()
      ensures Valid() && maxsize == MAX_SIZE && ttl == TTL_SECONDS && store == map[]
    {
      maxsize := MAX_SIZE;
      ttl := TTL_SECONDS;
      store := map[];
    }

    /** `get_user_posts`: the cached list while the entry is live, else nothing. */
    method GetUserPosts(userId: int, now: int) returns (posts: Option<seq<Post>>)
      ensures posts == Lookup(store, ttl, PostsKey(userId), now)
    {
      var key := PostsKey(userId);
      if key in store && now < store[key].cachedAt + ttl {
        posts := Some(store[key].posts);
      } else {
        posts := None;
      }
    }

    /** `set_user_posts`: overwrite the user's entry and restart its TTL. */
    method SetUserPosts(userId: int, posts: seq<Post>, now: int)
      requires Valid()
      modifies this
      ensures Valid()
      ensures StoredAfterSet(old(store), store, PostsKey(userId), Entry(posts, now, userId), ttl, maxsize, now)
    {
      var key := PostsKey(userId);
      var e := Entry(posts, now, userId);
      ghost var before := store;
      store := Expire(store, ttl, now);
      if key !in store && |store| >= maxsize {
        var victim :| victim in store;
        store := store - {victim};
        StoreAfterEviction(before, victim, key, e, ttl, maxsize, now);
      } else {
        StoreWithoutEviction(before, key, e, ttl, maxsize, now);
      }
      store := store[key := e];
    }

    /** `invalidate_user_posts`: delete the user's entry if it is live; a
        no-op otherwise. */
    method InvalidateUserPosts(userId: int, now: int)
      requires Valid()
      modifies this
      ensures Valid()
      ensures store == Invalidated(old(store), ttl, PostsKey(userId), now)
    {
      var key := PostsKey(userId);
      if key in store && now < store[key].cachedAt + ttl {
        store := store - {key};
      }
    }

    /** `get_cache_info`: the number of live entries, the capacity and the TTL. */
    function GetCacheInfo(now: int): (info: CacheInfo)
      reads this
      requires Valid()
      ensures info.size <= info.maxsize == maxsize && info.ttl == ttl
      ensures info.size == |LiveKeys(store, ttl, now)|
    {
      LiveKeysBound(store, ttl, now);
      CacheInfo(|LiveKeys(store, ttl, now)|, maxsize, ttl)
    }

    /** `clear_cache`: drop every entry. */
    method ClearCache()
      requires Valid()
      modifies this
      ensures Valid() && store == map[]
      ensures forall u: int, t: int :: Lookup(store, ttl, PostsKey(u), t).None?
    {
      store := map[];
    }
  }

  /** A list just stored is returned exactly, until its TTL runs out. */
  lemma GetAfterSet(before: map<string, Entry>, after: map<string, Entry>, u: int, posts: seq<Post>,
                    t: int, ttl: nat, maxsize: nat, now: int)
    requires StoredAfterSet(before, after, PostsKey(u), Entry(posts, t, u), ttl, maxsize, t)
    ensures Lookup(after, ttl, PostsKey(u), now) == (if now < t + ttl then Some(posts) else None)
  {
  }

  /** Storing one user's list leaves every other user's read unchanged,
      except that a full cache may have evicted one of them. */
  lemma SetIsolation(before: map<string, Entry>, after: map<string, Entry>, u: int, e: Entry,
                     v: int, ttl: nat, maxsize: nat, now: int)
    requires StoredAfterSet(before, after, PostsKey(u), e, ttl, maxsize, now)
    requires u != v
    ensures Lookup(after, ttl, PostsKey(v), now) == Lookup(before, ttl, PostsKey(v), now)
         || (Lookup(after, ttl, PostsKey(v), now).None? && |LiveKeys(before, ttl, now)| == maxsize)
  {
    var kv := PostsKey(v);
    if kv == PostsKey(u) {
      CacheKeyInjective(u, v, POSTS_PREFIX);
    }
    if kv in before && Live(before[kv], ttl, now) && kv !in after {
      assert kv in LiveKeys(before, ttl, now) - {PostsKey(u)} - after.Keys;
    }
  }

  /** After an invalidation the user's reads miss from then on: a live
      entry is gone, and an entry the invalidation left was already expired. */
  lemma GetAfterInvalidate(store: map<string, Entry>, ttl: nat, u: int, now: int, later: int)
    requires now <= later
    ensures Lookup(Invalidated(store, ttl, PostsKey(u), now), ttl, PostsKey(u), later).None?
  {
  }

  /** Invalidating twice is invalidating once. */
  lemma InvalidateIdempotent(store: map<string, Entry>, ttl: nat, key: string, now: int)
    ensures Invalidated(Invalidated(store, ttl, key, now), ttl, key, now) == Invalidated(store, ttl, key, now)
  {
  }

  /** Invalidating one user's entry never changes another user's read. */
  lemma InvalidateIsolation(store: map<string, Entry>, ttl: nat, u: int, v: int, now: int, later: int)
    requires u != v
    ensures Lookup(Invalidated(store, ttl, PostsKey(u), now), ttl, PostsKey(v), later)
         == Lookup(store, ttl, PostsKey(v), later)
  {
    if PostsKey(u) == PostsKey(v) {
      CacheKeyInjective(u, v, POSTS_PREFIX);
    }
  }
}
