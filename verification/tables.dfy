/** The `users` and `posts` tables and the queries the services run on them.
    The session is an object whose two tables the services update; the
    storage engine itself is not modelled. Rows keep insertion order, which
    is also ascending id order. */
module Tables {
  import opened Wrappers
  import opened Models
  import PostSchemas

  predicate HasUser(users: seq<User>, id: int) {
    exists j :: 0 <= j < |users| && users[j].id == id
  }

  class Db {
    var users: seq<User>
    var posts: seq<Post>
    var nextUserId: int   // the id the next inserted user receives
    var nextPostId: int   // the id the next inserted post receives

    /** Ids are positive, unique and issued in increasing order; emails are
        unique; every post has valid text and an existing author. */
    ghost predicate Valid()
      reads this
    {
      && 1 <= nextUserId && 1 <= nextPostId
      && (forall i :: 0 <= i < |users| ==> 0 < users[i].id < nextUserId)
      && (forall i, j :: 0 <= i < j < |users| ==> users[i].id < users[j].id)
      && (forall i, j :: 0 <= i < j < |users| ==> users[i].email != users[j].email)
      && (forall i :: 0 <= i < |posts| ==> 0 < posts[i].id < nextPostId)
      && (forall i, j :: 0 <= i < j < |posts| ==> posts[i].id < posts[j].id)
      && (forall i :: 0 <= i < |posts| ==> PostSchemas.ValidPostText(posts[i].text))
      && (forall i :: 0 <= i < |posts| ==> HasUser(users, posts[i].userId))
    }

    constructor ()
      ensures Valid() && users == [] && posts == []
    {
      users, posts := [], [];
      nextUserId, nextPostId := 1, 1;
    }
  }

  /** `filter(User.id == id).first()`. */
  function FindUserById(users: seq<User>, id: int): (r: Option<User>)
    ensures r.Some? <==> HasUser(users, id)
    ensures r.Some? ==> r.value in users && r.value.id == id
  {
    if users == [] then None
    else if users[0].id == id then Some(users[0])
    else
      var r := FindUserById(users[1..], id);
      assert HasUser(users, id) ==> users[0].id == id || HasUser(users[1..], id) by {
        if HasUser(users, id) {
          var j :| 0 <= j < |users| && users[j].id == id;
          if j > 0 { assert users[1..][j - 1].id == id; }
        }
      }
      r
  }

  /** `filter(User.email == email).first()`. */
  function FindUserByEmail(users: seq<User>, email: string): (r: Option<User>)
    ensures r.Some? ==> r.value in users && r.value.email == email
    ensures r.None? ==> forall u :: u in users ==> u.email != email
  {
    if users == [] then None
    else if users[0].email == email then Some(users[0])
    else FindUserByEmail(users[1..], email)
  }

  /** `filter(Post.user_id == u)`, in table order. */
  function OwnedBy(posts: seq<Post>, u: int): (r: seq<Post>)
    ensures |r| <= |posts|
    ensures forall p :: p in r <==> p in posts && p.userId == u
    ensures forall p :: multiset(r)[p] == if p.userId == u then multiset(posts)[p] else 0
  {
    assert posts != [] ==> posts == [posts[0]] + posts[1..];
    if posts == [] then []
    else (if posts[0].userId == u then [posts[0]] else []) + OwnedBy(posts[1..], u)
  }

  lemma {:induction false} OwnedByAppend(a: seq<Post>, b: seq<Post>, u: int)
    ensures OwnedBy(a + b, u) == OwnedBy(a, u) + OwnedBy(b, u)
  {
    if a == [] {
      assert a + b == b;
    } else {
      assert (a + b)[0] == a[0];
      assert (a + b)[1..] == a[1..] + b;
      OwnedByAppend(a[1..], b, u);
    }
  }

  /** `order_by(Post.created_at.desc())`: newest first. */
  ghost predicate NewestFirst(s: seq<Post>) {
    forall i, j :: 0 <= i < j < |s| ==> s[i].createdAt >= s[j].createdAt
  }

  lemma HeadIsNewest(s: seq<Post>)
    requires NewestFirst(s) && s != []
    ensures forall x :: x in s ==> x.createdAt <= s[0].createdAt
  {
  }

  lemma ConsNewestFirst(h: Post, rest: seq<Post>)
    requires NewestFirst(rest)
    requires forall x :: x in rest ==> x.createdAt <= h.createdAt
    ensures NewestFirst([h] + rest)
  {
    var r := [h] + rest;
    forall i, j | 0 <= i < j < |r| ensures r[i].createdAt >= r[j].createdAt {
      assert r[j] == rest[j - 1];
      if i > 0 { assert r[i] == rest[i - 1]; }
    }
  }

  /** Places `p` before the first post that is not newer than it. */
  function InsertNewestFirst(p: Post, s: seq<Post>): (r: seq<Post>)
    requires NewestFirst(s)
    ensures NewestFirst(r)
    ensures multiset(r) == multiset(s) + multiset{p}
    ensures forall x :: x in r ==> x == p || x in s
  {
    if s == [] then [p]
    else if p.createdAt >= s[0].createdAt then
      HeadIsNewest(s);
      ConsNewestFirst(p, s);
      [p] + s
    else
      var rest := InsertNewestFirst(p, s[1..]);
      HeadIsNewest(s);
      assert forall x :: x in s[1..] ==> x in s;
      ConsNewestFirst(s[0], rest);
      assert s == [s[0]] + s[1..];
      assert multiset(s) == multiset{s[0]} + multiset(s[1..]);
      assert multiset([s[0]] + rest) == multiset{s[0]} + multiset(rest);
      [s[0]] + rest
  }

  /** Orders posts newest first; posts created at the same time keep their
      table order. */
  function SortNewestFirst(s: seq<Post>): (r: seq<Post>)
    ensures NewestFirst(r)
    ensures multiset(r) == multiset(s)
  {
    if s == [] then []
    else
      assert s == [s[0]] + s[1..];
      InsertNewestFirst(s[0], SortNewestFirst(s[1..]))
  }

  /** The listing query of `get_user_posts`: the user's posts, newest first. */
  function PostsByOwner(posts: seq<Post>, u: int): (r: seq<Post>)
    ensures NewestFirst(r)
    ensures multiset(r) == multiset(OwnedBy(posts, u))
    ensures forall p :: p in r <==> p in posts && p.userId == u
  {
    var r := SortNewestFirst(OwnedBy(posts, u));
    assert forall p :: p in r <==> p in multiset(OwnedBy(posts, u));
    r
  }

  /** Adding another user's post does not change a user's listing. */
  lemma PostsByOwnerAfterInsert(posts: seq<Post>, p: Post, u: int)
    requires p.userId != u
    ensures PostsByOwner(posts + [p], u) == PostsByOwner(posts, u)
  {
    OwnedByAppend(posts, [p], u);
    assert OwnedBy([p], u) == [];
    assert OwnedBy(posts, u) + [] == OwnedBy(posts, u);
  }

  /** Removing another user's post does not change a user's listing. */
  lemma PostsByOwnerAfterRemove(posts: seq<Post>, i: nat, u: int)
    requires i < |posts| && posts[i].userId != u
    ensures PostsByOwner(posts[..i] + posts[i + 1..], u) == PostsByOwner(posts, u)
  {
    OwnedByWithout(posts, i, u);
  }

  lemma OwnedByWithout(posts: seq<Post>, i: nat, u: int)
    requires i < |posts| && posts[i].userId != u
    ensures OwnedBy(posts[..i] + posts[i + 1..], u) == OwnedBy(posts, u)
  {
    var pre, mid, post := posts[..i], [posts[i]], posts[i + 1..];
    assert posts == pre + (mid + post);
    OwnedByAppend(pre, mid + post, u);
    OwnedByAppend(mid, post, u);
    OwnedByAppend(pre, post, u);
    assert OwnedBy(mid, u) == [] by {
      assert mid[1..] == [];
    }
    assert OwnedBy(mid + post, u) == OwnedBy(post, u);
  }

  /** `filter(Post.id == post_id, Post.user_id == u).first()`, as the index
      of the matching row. */
  function IndexOfOwnedPost(posts: seq<Post>, postId: int, u: int): (r: Option<nat>)
    ensures r.Some? ==> r.value < |posts| && posts[r.value].id == postId && posts[r.value].userId == u
    ensures r.None? <==> forall i :: 0 <= i < |posts| ==> !(posts[i].id == postId && posts[i].userId == u)
  {
    if posts == [] then None
    else if posts[0].id == postId && posts[0].userId == u then Some(0)
    else
      match IndexOfOwnedPost(posts[1..], postId, u)
      case None =>
        assert forall i :: 1 <= i < |posts| ==> posts[i] == posts[1..][i - 1];
        None
      case Some(i) => Some(i + 1)
  }
}
