/** The post feed: create, the newest-first listing, lookup by id,
    owner-only delete, and like/unlike, which edit a post's `likes` list in
    place. */
module Posts {
  import opened Http
  import Users

  /** A stored post. `name` is the author's display name copied at creation,
      `userId` the author, `likes` the liking users, most recent first. */
  datatype Post = Post(
    id: nat,
    text: string,
    name: string,
    userId: UserId,
    likes: seq<UserId>,
    date: nat)

  const TextRequired := "Text is required"
  const PostNotFound := "Post not found"
  const NotAuthorized := "User not authorized"
  const PostRemoved := "Post removed"
  const AlreadyLiked := "Post already liked"
  const NotLiked := "Post has not been liked"

  // ---------------------------------------------------------------------
  // The likes list

  /** `likes.filter(like => like.user === u).length`. */
  function LikesBy(likes: seq<UserId>, u: UserId): (n: nat)
    ensures n > 0 <==> u in likes
    ensures n <= |likes|
  {
    if likes == [] then 0
    else (if likes[0] == u then 1 else 0) + LikesBy(likes[1..], u)
  }

  /** `likes.map(like => like.user).indexOf(u)`: the first position of `u`, or -1. */
  function IndexOf(likes: seq<UserId>, u: UserId): (k: int)
    ensures -1 <= k < |likes|
    ensures k == -1 <==> u !in likes
    ensures k >= 0 ==> likes[k] == u && u !in likes[..k]
  {
    if likes == [] then -1
    else if likes[0] == u then 0
    else
      var k := IndexOf(likes[1..], u);
      assert k >= 0 ==> likes[..k + 1] == [likes[0]] + likes[1..][..k];
      if k == -1 then -1 else k + 1
  }

  /** `s.splice(i, 1)`: `s` without its entry at position `i`, the others in
      their order. */
  function Splice<T>(s: seq<T>, i: nat): (r: seq<T>)
    requires i < |s|
    ensures |r| == |s| - 1
    ensures multiset(r) == multiset(s) - multiset{s[i]}
    ensures forall m :: 0 <= m < |r| ==> r[m] == if m < i then s[m] else s[m + 1]
  {
    assert s == s[..i] + [s[i]] + s[i + 1..];
    s[..i] + s[i + 1..]
  }

  /** No user occurs twice. */
  predicate Distinct(likes: seq<UserId>)
  {
    forall i, j :: 0 <= i < j < |likes| ==> likes[i] != likes[j]
  }

  /** Reference definition of unliking: drop the first occurrence of `u`. */
  function RemoveFirst(likes: seq<UserId>, u: UserId): seq<UserId>
  {
    if likes == [] then []
    else if likes[0] == u then likes[1..]
    else [likes[0]] + RemoveFirst(likes[1..], u)
  }

  /** Splicing below the head splices the tail. */
  lemma SpliceBelowHead(s: seq<UserId>, k: nat)
    requires k + 1 < |s|
    ensures Splice(s, k + 1) == [s[0]] + Splice(s[1..], k)
  {
  }

  /** Splicing at `indexOf(u)` removes exactly the first occurrence of `u`. */
  lemma {:induction false} UnlikeRemovesFirst(likes: seq<UserId>, u: UserId)
    requires u in likes
    ensures Splice(likes, IndexOf(likes, u)) == RemoveFirst(likes, u)
  {
    if likes[0] != u {
      var rest := likes[1..];
      assert u in rest;
      UnlikeRemovesFirst(rest, u);
      SpliceBelowHead(likes, IndexOf(rest, u));
    }
  }

  /** Liking then unliking by the same user restores the list. */
  lemma LikeThenUnlikeRestores(likes: seq<UserId>, u: UserId)
    requires u !in likes
    ensures Splice([u] + likes, IndexOf([u] + likes, u)) == likes
  {
  }

  /** Under `Distinct`, the source's filter count never exceeds one ... */
  lemma {:induction false} DistinctMeansLikedOnce(likes: seq<UserId>, u: UserId)
    requires Distinct(likes)
    ensures LikesBy(likes, u) <= 1
  {
    if likes != [] {
      var rest := likes[1..];
      assert Distinct(rest) by {
        forall i, j | 0 <= i < j < |rest|
          ensures rest[i] != rest[j]
        {
          assert rest[i] == likes[i + 1] && rest[j] == likes[j + 1];
        }
      }
      DistinctMeansLikedOnce(rest, u);
      if likes[0] == u {
        forall j | 0 <= j < |rest|
          ensures rest[j] != u
        {
          assert rest[j] == likes[j + 1];
        }
      }
    }
  }

  /** ... and a filter count of at most one for every user means `Distinct`. */
  lemma {:induction false} LikedOnceMeansDistinct(likes: seq<UserId>)
    requires forall u :: LikesBy(likes, u) <= 1
    ensures Distinct(likes)
  {
    if likes != [] {
      var rest := likes[1..];
      forall u
        ensures LikesBy(rest, u) <= 1
      {
        assert LikesBy(rest, u) <= LikesBy(likes, u);
      }
      LikedOnceMeansDistinct(rest);
      assert likes[0] !in rest by {
        assert LikesBy(likes, likes[0]) == 1 + LikesBy(rest, likes[0]);
      }
      forall i, j | 0 <= i < j < |likes|
        ensures likes[i] != likes[j]
      {
        assert likes[j] == rest[j - 1];
        if i > 0 {
          assert likes[i] == rest[i - 1];
        }
      }
    }
  }

  /** Prepending a user not yet present keeps the list duplicate-free. */
  lemma LikeKeepsDistinct(likes: seq<UserId>, u: UserId)
    requires Distinct(likes) && u !in likes
    ensures Distinct([u] + likes)
  {
  }

  /** Removing one entry keeps the list duplicate-free, and the removed user
      is gone from it. */
  lemma UnlikeKeepsDistinct(likes: seq<UserId>, i: nat)
    requires Distinct(likes) && i < |likes|
    ensures Distinct(Splice(likes, i)) && likes[i] !in Splice(likes, i)
  {
  }

  // ---------------------------------------------------------------------
  // The newest-first listing

  /** Ordered by `date` descending. */
  predicate NewestFirst(ps: seq<Post>)
  {
    forall i, j :: 0 <= i < j < |ps| ==> ps[i].date >= ps[j].date
  }

  /** Inserts `p` into a newest-first list. */
  function InsertByDate(p: Post, ps: seq<Post>): (r: seq<Post>)
    requires NewestFirst(ps)
    ensures NewestFirst(r)
    ensures multiset(r) == multiset(ps) + multiset{p}
    ensures |r| == |ps| + 1 && (r[0] == p || (|ps| > 0 && r[0] == ps[0]))
  {
    if ps == [] || p.date >= ps[0].date then
      [p] + ps
    else
      var tail := InsertByDate(p, ps[1..]);
      assert ps == [ps[0]] + ps[1..];
      [ps[0]] + tail
  }

  /** `Post.find().sort({ date: -1 })`: every post, newest first. */
  function SortNewestFirst(ps: seq<Post>): (r: seq<Post>)
    ensures NewestFirst(r)
    ensures multiset(r) == multiset(ps)
  {
    if ps == [] then []
    else
      assert ps == [ps[0]] + ps[1..];
      InsertByDate(ps[0], SortNewestFirst(ps[1..]))
  }

  // ---------------------------------------------------------------------
  // Lookup by id

  /** The position of the post with id `id`, or -1. */
  function IndexOfId(ps: seq<Post>, id: nat): (k: int)
    ensures -1 <= k < |ps|
    ensures k == -1 <==> forall i :: 0 <= i < |ps| ==> ps[i].id != id
    ensures k >= 0 ==> ps[k].id == id
  {
    if ps == [] then -1
    else if ps[0].id == id then 0
    else
      var k := IndexOfId(ps[1..], id);
      if k == -1 then -1 else k + 1
  }

  /** `Post.findById(param)`: a cast failure finds nothing, like a missing id. */
  function Find(ps: seq<Post>, param: IdParam): (k: int)
    ensures -1 <= k < |ps|
    ensures k == -1 <==> param.NotAnObjectId? || forall i :: 0 <= i < |ps| ==> ps[i].id != param.id
    ensures k >= 0 ==> param.ObjectId? && ps[k].id == param.id
  {
    match param
    case NotAnObjectId => -1
    case ObjectId(id) => IndexOfId(ps, id)
  }

  /** Post ids are pairwise distinct. */
  predicate IdsDistinct(ps: seq<Post>)
  {
    forall i, j :: 0 <= i < j < |ps| ==> ps[i].id != ps[j].id
  }

  /** Removing the post at `k` removes exactly the post with that id and keeps
      every other post; afterwards that id is not found. */
  lemma RemoveKeepsOthers(ps: seq<Post>, k: nat)
    requires IdsDistinct(ps) && k < |ps|
    ensures forall q :: q in Splice(ps, k) <==> q in ps && q.id != ps[k].id
    ensures Find(Splice(ps, k), ObjectId(ps[k].id)) == -1
  {
  }

  // ---------------------------------------------------------------------
  // The store

  /** Post ids are distinct and below the next fresh id, and no post is
      liked twice by one user. */
  predicate WellFormed(ps: seq<Post>, nextId: nat)
  {
    && IdsDistinct(ps)
    && (forall i :: 0 <= i < |ps| ==> ps[i].id < nextId && Distinct(ps[i].likes))
  }

  /** Replacing one post's likes by a duplicate-free list keeps the
      collection well formed. */
  lemma SetLikesKeepsWellFormed(ps: seq<Post>, nextId: nat, k: nat, likes: seq<UserId>)
    requires WellFormed(ps, nextId) && k < |ps| && Distinct(likes)
    ensures WellFormed(ps[k := ps[k].(likes := likes)], nextId)
  {
  }

  /** A new post with the next fresh id and no likes keeps the collection
      well formed. */
  lemma AppendKeepsWellFormed(ps: seq<Post>, nextId: nat, p: Post)
    requires WellFormed(ps, nextId) && p.id == nextId && p.likes == []
    ensures WellFormed(ps + [p], nextId + 1)
  {
  }

  /** Removing a post keeps the collection well formed. */
  lemma RemoveKeepsWellFormed(ps: seq<Post>, nextId: nat, k: nat)
    requires WellFormed(ps, nextId) && k < |ps|
    ensures WellFormed(Splice(ps, k), nextId)
  {
  }

  /** The post collection. */
  class PostStore {
    var posts: seq<Post>
    var nextId: nat

    ghost predicate Valid()
      reads this
    {
      WellFormed(posts, nextId)
    }

    constructor ()
      ensures Valid() && posts == []
    {
      posts := [];
      nextId := 0;
    }

    /** `POST /api/posts`: the author is looked up by the caller's id; a
        missing author makes `user.name` throw, which ends in 500. */
    method Create(caller: UserId, text: string, users: seq<Users.User>, now: nat) returns (reply: Reply<Post>)
      requires Valid()
      modifies this
      ensures Valid()
      ensures reply.Status? ==> posts == old(posts) && nextId == old(nextId)
      ensures text == "" ==> reply == Status(BadRequest, [TextRequired])
      ensures text != "" && Users.FindById(users, caller).None? ==> reply == ServerFault()
      ensures text != "" && Users.FindById(users, caller).Some? ==>
                var p := Post(old(nextId), text, Users.FindById(users, caller).value.name, caller, [], now);
                && reply == Ok(p)
                && posts == old(posts) + [p]
                && nextId == old(nextId) + 1
    {
      if text == "" {
        return Status(BadRequest, [TextRequired]);
      }
      var user := Users.FindById(users, caller);
      if user.None? {
        return ServerFault();
      }
      var newPost := Post(nextId, text, user.value.name, user.value.id, [], now);
      AppendKeepsWellFormed(posts, nextId, newPost);
      posts := posts + [newPost];
      nextId := nextId + 1;
      reply := Ok(newPost);
    }

    /** `GET /api/posts`. */
    function List(): (r: Reply<seq<Post>>)
      reads this
      ensures r.Ok? && NewestFirst(r.body) && multiset(r.body) == multiset(posts)
    {
      Ok(SortNewestFirst(posts))
    }

    /** `GET /api/posts/:id`. */
    function GetById(param: IdParam): (r: Reply<Post>)
      reads this
      ensures r.Ok? <==> param.ObjectId? && exists i :: 0 <= i < |posts| && posts[i].id == param.id
      ensures r.Ok? ==> r.body in posts && r.body.id == param.id
      ensures r.Status? ==> r == Status(NotFound, [PostNotFound])
    {
      var k := Find(posts, param);
      if k == -1 then Status(NotFound, [PostNotFound]) else Ok(posts[k])
    }

    /** `DELETE /api/posts/:id`: only the author may remove a post. */
    method Delete(param: IdParam, caller: UserId) returns (reply: Reply<string>)
      requires Valid()
      modifies this
      ensures Valid() && nextId == old(nextId)
      ensures reply.Status? ==> posts == old(posts)
      ensures Find(old(posts), param) == -1 ==> reply == Status(NotFound, [PostNotFound])
      ensures var k := Find(old(posts), param);
              k >= 0 && old(posts)[k].userId != caller ==> reply == Status(Unauthorized, [NotAuthorized])
      ensures var k := Find(old(posts), param);
              k >= 0 && old(posts)[k].userId == caller ==> reply == Ok(PostRemoved) && posts == Splice(old(posts), k)
    {
      var k := Find(posts, param);
      if k == -1 {
        return Status(NotFound, [PostNotFound]);
      }
      if posts[k].userId != caller {
        return Status(Unauthorized, [NotAuthorized]);
      }
      RemoveKeepsWellFormed(posts, nextId, k);
      posts := Splice(posts, k);
      reply := Ok(PostRemoved);
    }

    /** `PUT /api/posts/like/:id`: a missing post is not checked for, so
        reading its likes throws and the reply is 500. */
    method Like(param: IdParam, caller: UserId) returns (reply: Reply<seq<UserId>>)
      requires Valid()
      modifies this
      ensures Valid() && nextId == old(nextId)
      ensures reply.Status? ==> posts == old(posts)
      ensures Find(old(posts), param) == -1 ==> reply == ServerFault()
      ensures var k := Find(old(posts), param);
              k >= 0 && caller in old(posts)[k].likes ==> reply == Status(BadRequest, [AlreadyLiked])
      ensures var k := Find(old(posts), param);
              k >= 0 && caller !in old(posts)[k].likes ==>
                var likes := [caller] + old(posts)[k].likes;
                && posts == old(posts)[k := old(posts)[k].(likes := likes)]
                && reply == Ok(likes)
    {
      var k := Find(posts, param);
      if k == -1 {
        return ServerFault();
      }
      var post := posts[k];
      if LikesBy(post.likes, caller) > 0 {
        return Status(BadRequest, [AlreadyLiked]);
      }
      LikeKeepsDistinct(post.likes, caller);
      SetLikesKeepsWellFormed(posts, nextId, k, [caller] + post.likes);
      post := post.(likes := [caller] + post.likes);
      posts := posts[k := post];
      reply := Ok(post.likes);
    }

    /** `PUT /api/posts/unlike/:id`: removes the caller's entry found by
        `indexOf`. A missing post ends in 500 as for like. */
    method Unlike(param: IdParam, caller: UserId) returns (reply: Reply<seq<UserId>>)
      requires Valid()
      modifies this
      ensures Valid() && nextId == old(nextId)
      ensures reply.Status? ==> posts == old(posts)
      ensures Find(old(posts), param) == -1 ==> reply == ServerFault()
      ensures var k := Find(old(posts), param);
              k >= 0 && caller !in old(posts)[k].likes ==> reply == Status(BadRequest, [NotLiked])
      ensures var k := Find(old(posts), param);
              k >= 0 && caller in old(posts)[k].likes ==>
                var likes := RemoveFirst(old(posts)[k].likes, caller);
                && posts == old(posts)[k := old(posts)[k].(likes := likes)]
                && reply == Ok(likes)
                && caller !in likes
                && multiset(likes) == multiset(old(posts)[k].likes) - multiset{caller}
    {
      var k := Find(posts, param);
      if k == -1 {
        return ServerFault();
      }
      var post := posts[k];
      if LikesBy(post.likes, caller) == 0 {
        return Status(BadRequest, [NotLiked]);
      }
      var removeIndex := IndexOf(post.likes, caller);
      UnlikeRemovesFirst(post.likes, caller);
      UnlikeKeepsDistinct(post.likes, removeIndex);
      SetLikesKeepsWellFormed(posts, nextId, k, Splice(post.likes, removeIndex));
      post := post.(likes := Splice(post.likes, removeIndex));
      posts := posts[k := post];
      reply := Ok(post.likes);
    }
  }

  /** Like, like again, unlike, like: the second like is refused and the
      like after the unlike is accepted again. */
  method LikeUnlikeScenario(author: Users.User, liker: UserId, text: string, now: nat)
    returns (first: Reply<seq<UserId>>, again: Reply<seq<UserId>>, undone: Reply<seq<UserId>>, redone: Reply<seq<UserId>>)
    requires text != ""
    ensures first == Ok([liker])
    ensures again == Status(BadRequest, [AlreadyLiked])
    ensures undone == Ok([])
    ensures redone == Ok([liker])
  {
    var store := new PostStore();
    var created := store.Create(author.id, text, [author], now);
    assert Users.FindById([author], author.id) == Some(author);
    var id := ObjectId(created.body.id);
    assert Find(store.posts, id) == 0 && store.posts[0].likes == [];
    assert [liker] + [] == [liker];
    first := store.Like(id, liker);
    again := store.Like(id, liker);
    undone := store.Unlike(id, liker);
    redone := store.Like(id, liker);
  }

  /** A non-author's delete is refused; the author's succeeds, after which
      the post is not found. */
  method DeleteScenario(author: Users.User, stranger: UserId, text: string, now: nat)
    returns (byStranger: Reply<string>, byAuthor: Reply<string>, after: Reply<Post>)
    requires text != "" && stranger != author.id
    ensures byStranger == Status(Unauthorized, [NotAuthorized])
    ensures byAuthor == Ok(PostRemoved)
    ensures after == Status(NotFound, [PostNotFound])
  {
    var store := new PostStore();
    var created := store.Create(author.id, text, [author], now);
    var id := ObjectId(created.body.id);
    byStranger := store.Delete(id, stranger);
    byAuthor := store.Delete(id, author.id);
    after := store.GetById(id);
  }
}
