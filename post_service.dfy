/**
 * The local post service (src/services/post/post.service.local.js): likes,
 * comments and saving over an abstract store from post id to post, and the
 * likes filter, likes sort and projection of `query`.
 *
 * The asynchronous storage is a map field; a lookup of an unknown id fails
 * with `PostNotFound`. Reading an array key that is missing (`post.likedBy`,
 * `post.comments` on a post without them) raises a TypeError in the source,
 * modelled as `MissingList`. Generated ids and timestamps are parameters.
 */
module PostService {
  import opened Wrappers
  import opened Entities
  import opened Basics

  datatype ServiceError = PostNotFound | NotLoggedIn | CommentNotFound | MissingList

  /* ---------------- Post likes ---------------- */

  /** `likedBy.findIndex(u => u._id === id)`. */
  function IndexOfUser(s: seq<User>, id: string): (r: int)
    ensures -1 <= r < |s|
    ensures r == -1 <==> forall i :: 0 <= i < |s| ==> s[i].id != id
    ensures r >= 0 ==> s[r].id == id && forall i :: 0 <= i < r ==> s[i].id != id
  {
    if s == [] then -1
    else if s[0].id == id then 0
    else
      var r := IndexOfUser(s[1..], id);
      assert forall i :: 0 < i < |s| ==> s[i] == s[1..][i - 1];
      if r == -1 then -1 else r + 1
  }

  /** Number of entries with the id. */
  function IdCount(s: seq<User>, id: string): nat {
    if s == [] then 0 else (if s[0].id == id then 1 else 0) + IdCount(s[1..], id)
  }

  /** The entries with other ids, in order. */
  function OtherUsers(s: seq<User>, id: string): seq<User> {
    if s == [] then [] else (if s[0].id != id then [s[0]] else []) + OtherUsers(s[1..], id)
  }

  lemma IdCountAppend(a: seq<User>, b: seq<User>, id: string)
    ensures IdCount(a + b, id) == IdCount(a, id) + IdCount(b, id)
    ensures OtherUsers(a + b, id) == OtherUsers(a, id) + OtherUsers(b, id)
  {
    CountAppend(a, b, id);
    OthersAppend(a, b, id);
  }

  lemma {:induction false} CountAppend(a: seq<User>, b: seq<User>, id: string)
    ensures IdCount(a + b, id) == IdCount(a, id) + IdCount(b, id)
    decreases |a|
  {
    if a == [] {
      assert a + b == b;
    } else {
      ConsAppend(a, b);
      CountAppend(a[1..], b, id);
    }
  }

  lemma {:induction false} OthersAppend(a: seq<User>, b: seq<User>, id: string)
    ensures OtherUsers(a + b, id) == OtherUsers(a, id) + OtherUsers(b, id)
    decreases |a|
  {
    if a == [] {
      assert a + b == b;
    } else {
      ConsAppend(a, b);
      OthersAppend(a[1..], b, id);
      var h := if a[0].id != id then [a[0]] else [];
      assert OtherUsers(a + b, id) == h + OtherUsers(a[1..] + b, id);
      AppendAssoc(h, OtherUsers(a[1..], id), OtherUsers(b, id));
    }
  }

  lemma {:induction false} IdCountZero(s: seq<User>, id: string)
    ensures (IdCount(s, id) == 0) == (forall i :: 0 <= i < |s| ==> s[i].id != id)
    ensures IdCount(s, id) == 0 ==> OtherUsers(s, id) == s
    decreases |s|
  {
    if s != [] {
      IdCountZero(s[1..], id);
      assert forall i :: 0 < i < |s| ==> s[i] == s[1..][i - 1];
    }
  }

  /** `togglePostLike`'s list step: remove the first entry of the user, or
      append the user's `{_id, fullname, imgUrl}`. Exactly one entry of the
      user is removed or the only one is added, and the other users' entries
      keep their order. */
  function ToggleLiker(s: seq<User>, u: User): (r: seq<User>)
    ensures IdCount(r, u.id) == if IdCount(s, u.id) > 0 then IdCount(s, u.id) - 1 else 1
    ensures OtherUsers(r, u.id) == OtherUsers(s, u.id)
    ensures IdCount(s, u.id) == 0 ==> r == s + [Brief(u)]
    ensures IdCount(s, u.id) > 0 ==> exists i :: DropsFirstUser(s, r, u.id, i)
  {
    var i := IndexOfUser(s, u.id);
    IdCountZero(s, u.id);
    if i == -1 then
      IdCountAppend(s, [Brief(u)], u.id);
      s + [Brief(u)]
    else
      RemoveFirstLiker(s, i, u.id);
      assert DropsFirstUser(s, s[..i] + s[i + 1..], u.id, i);
      s[..i] + s[i + 1..]
  }

  /** `r` is `s` without its entry at `i`, the first entry with the id. */
  predicate DropsFirstUser(s: seq<User>, r: seq<User>, id: string, i: int) {
    && 0 <= i < |s| && s[i].id == id
    && (forall j :: 0 <= j < i ==> s[j].id != id)
    && r == s[..i] + s[i + 1..]
  }

  /** Dropping an entry with the id removes one of its entries and no other
      user's. */
  lemma RemoveFirstLiker(s: seq<User>, i: nat, id: string)
    requires i < |s| && s[i].id == id
    ensures IdCount(s[..i] + s[i + 1..], id) == IdCount(s, id) - 1
    ensures OtherUsers(s[..i] + s[i + 1..], id) == OtherUsers(s, id)
  {
    var a, b := s[..i], s[i + 1..];
    SplitAt(s, i);
    IdCountAppend(a + [s[i]], b, id);
    IdCountAppend(a, [s[i]], id);
    IdCountAppend(a, b, id);
    assert IdCount([s[i]], id) == 1 && OtherUsers([s[i]], id) == [];
  }

  lemma SplitAt(s: seq<User>, i: nat)
    requires i < |s|
    ensures s == s[..i] + [s[i]] + s[i + 1..]
  {
  }

  /** Liking and unliking restores the list; toggling twice restores whether
      the user likes the post. */
  lemma ToggleLikerTwice(s: seq<User>, u: User)
    ensures IdCount(s, u.id) == 0 ==> ToggleLiker(ToggleLiker(s, u), u) == s
    ensures IdCount(s, u.id) <= 1 ==>
      (IdCount(ToggleLiker(ToggleLiker(s, u), u), u.id) > 0) == (IdCount(s, u.id) > 0)
  {
    if IdCount(s, u.id) == 0 {
      var t := s + [Brief(u)];
      var i := IndexOfUser(t, u.id);
      IdCountZero(s, u.id);
      assert t[|s|].id == u.id;
      assert i == |s| by {
        if i < |s| { assert false; }
      }
      assert t[..i] == s;
    }
  }

  /** `togglePostLike` on a fetched post. */
  function ToggleLikeOn(p: Post, user: Option<User>): (r: Result<Post, ServiceError>)
    ensures user == None ==> r == Err(NotLoggedIn)
    ensures user != None && p.likedBy == None ==> r == Err(MissingList)
    ensures r.Ok? ==> r.value.likedBy == Some(ToggleLiker(p.likedBy.value, user.value))
                      && r.value.(likedBy := p.likedBy) == p
  {
    if user == None then Err(NotLoggedIn)
    else if p.likedBy == None then Err(MissingList)
    else Ok(p.(likedBy := Some(ToggleLiker(p.likedBy.value, user.value))))
  }

  /* ---------------- Comment likes ---------------- */

  /** `likedBy.indexOf(x)`. */
  function IndexOf(s: seq<string>, x: string): (r: int)
    ensures -1 <= r < |s|
    ensures r == -1 <==> x !in s
    ensures r >= 0 ==> s[r] == x && x !in s[..r]
  {
    if s == [] then -1
    else if s[0] == x then 0
    else
      var r := IndexOf(s[1..], x);
      assert s == [s[0]] + s[1..];
      if r == -1 then -1 else assert s[..r + 1] == [s[0]] + s[1..][..r]; r + 1
  }

  /** Remove the first occurrence of `x`, or append it: as a bag, exactly one
      `x` leaves or arrives. */
  function ToggleId(s: seq<string>, x: string): (r: seq<string>)
    ensures x in s ==> multiset(r) == multiset(s) - multiset{x}
    ensures x !in s ==> r == s + [x]
    ensures x in s ==> exists i :: DropsFirst(s, r, x, i)
  {
    var i := IndexOf(s, x);
    if i == -1 then s + [x]
    else
      assert s == s[..i] + [s[i]] + s[i + 1..];
      assert DropsFirst(s, s[..i] + s[i + 1..], x, i);
      s[..i] + s[i + 1..]
  }

  /** `r` is `s` without its element at `i`, the first occurrence of `x`. */
  predicate DropsFirst(s: seq<string>, r: seq<string>, x: string, i: int) {
    0 <= i < |s| && s[i] == x && x !in s[..i] && r == s[..i] + s[i + 1..]
  }

  /** Toggling a user id that was absent twice restores the list, and toggling
      twice restores whether the id is present, when it occurs at most once. */
  lemma ToggleIdTwice(s: seq<string>, x: string)
    ensures x !in s ==> ToggleId(ToggleId(s, x), x) == s
    ensures multiset(s)[x] <= 1 ==> (x in ToggleId(ToggleId(s, x), x) <==> x in s)
  {
    if x !in s {
      var t := s + [x];
      assert t[|s|] == x;
      var i := IndexOf(t, x);
      assert i == |s| by {
        if i < |s| { assert false; }
      }
      assert t[..i] == s;
    } else {
      var t := ToggleId(s, x);
      if multiset(s)[x] <= 1 {
        assert multiset(t)[x] == 0;
        assert x !in t;
        assert ToggleId(t, x) == t + [x];
      }
    }
  }

  /** `comments.find(c => c.id === id)`, as an index. */
  function IndexOfComment(cs: seq<Comment>, id: string): (r: int)
    ensures -1 <= r < |cs|
    ensures r == -1 <==> forall i :: 0 <= i < |cs| ==> cs[i].id != id
    ensures r >= 0 ==> cs[r].id == id && forall i :: 0 <= i < r ==> cs[i].id != id
  {
    if cs == [] then -1
    else if cs[0].id == id then 0
    else
      var r := IndexOfComment(cs[1..], id);
      assert forall i :: 0 < i < |cs| ==> cs[i] == cs[1..][i - 1];
      if r == -1 then -1 else r + 1
  }

  /** What `toggleLikeComment` returns. */
  datatype CommentLike = CommentLike(postId: string, commentId: string, userId: string, isLiked: bool)

  /** `toggleLikeComment` on a fetched post: the first comment with the id gets
      its likes (missing counts as none) toggled for the user; `isLiked` says
      whether the user was absent before. */
  function ToggleLikeCommentOn(p: Post, commentId: string, userId: string): (r: Result<(Post, bool), ServiceError>)
    ensures p.comments == None ==> r == Err(MissingList)
    ensures p.comments != None ==>
      (r == Err(CommentNotFound) <==> forall c :: c in p.comments.value ==> c.id != commentId)
    ensures r.Ok? ==>
      var cs := p.comments.value;
      var i := IndexOfComment(cs, commentId);
      && r.value.1 == (userId !in OrEmpty(cs[i].likedBy))
      && r.value.0.comments == Some(cs[i := cs[i].(likedBy := Some(ToggleId(OrEmpty(cs[i].likedBy), userId)))])
      && r.value.0.(comments := p.comments) == p
  {
    if p.comments == None then Err(MissingList)
    else
      var cs := p.comments.value;
      var i := IndexOfComment(cs, commentId);
      if i == -1 then
        assert forall c :: c in cs ==> c.id != commentId by {
          forall c | c in cs ensures c.id != commentId {
            var k :| 0 <= k < |cs| && cs[k] == c;
          }
        }
        Err(CommentNotFound)
      else
        var likes := OrEmpty(cs[i].likedBy);
        assert cs[i] in cs;
        Ok((p.(comments := Some(cs[i := cs[i].(likedBy := Some(ToggleId(likes, userId)))])), userId !in likes))
  }

  /* ---------------- Comments ---------------- */

  /** `comments.filter(c => c.id !== id)`. */
  function RemoveComments(cs: seq<Comment>, id: string): (r: seq<Comment>)
    ensures forall c :: c in r <==> c in cs && c.id != id
    ensures |r| <= |cs|
    ensures (forall i :: 0 <= i < |cs| ==> cs[i].id != id) ==> r == cs
  {
    if cs == [] then []
    else if cs[0].id == id then RemoveComments(cs[1..], id)
    else [cs[0]] + RemoveComments(cs[1..], id)
  }

  /** Filtering distributes over concatenation: the kept comments keep their order. */
  lemma {:induction false} RemoveCommentsAppend(a: seq<Comment>, b: seq<Comment>, id: string)
    ensures RemoveComments(a + b, id) == RemoveComments(a, id) + RemoveComments(b, id)
    decreases |a|
  {
    if a == [] {
      assert a + b == b;
    } else {
      ConsAppend(a, b);
      RemoveCommentsAppend(a[1..], b, id);
      if a[0].id != id {
        assert RemoveComments(a + b, id) == [a[0]] + RemoveComments(a[1..] + b, id);
        AppendAssoc([a[0]], RemoveComments(a[1..], id), RemoveComments(b, id));
      }
    }
  }

  /** `deletePostComment` on a fetched post. */
  function DeleteCommentOn(p: Post, commentId: string): (r: Result<Post, ServiceError>)
    ensures p.comments == None <==> r == Err(MissingList)
    ensures r.Ok? ==> r.value.comments == Some(RemoveComments(p.comments.value, commentId))
                      && r.value.(comments := p.comments) == p
  {
    if p.comments == None then Err(MissingList)
    else Ok(p.(comments := Some(RemoveComments(p.comments.value, commentId))))
  }

  /** The comment `addPostComment` creates: by the logged-in user (absent when
      nobody is logged in), with no likes yet. */
  function NewComment(id: string, date: string, user: Option<User>, txt: string): (c: Comment)
    ensures c.likedBy == Some([]) && c.author == user && c.txt == txt && c.id == id
  {
    Comment(id, date, user, txt, Some([]))
  }

  /** `addPostComment` on a fetched post: exactly one comment, at the end. */
  function AddCommentOn(p: Post, c: Comment): (r: Result<Post, ServiceError>)
    ensures p.comments == None <==> r == Err(MissingList)
    ensures r.Ok? ==>
      var cs := OrEmpty(r.value.comments);
      |cs| == |p.comments.value| + 1 && cs[..|cs| - 1] == p.comments.value && cs[|cs| - 1] == c
      && r.value.(comments := p.comments) == p
  {
    if p.comments == None then Err(MissingList)
    else Ok(p.(comments := Some(p.comments.value + [c])))
  }

  /* ---------------- Save ---------------- */

  /** The record `save` stores. An existing post (truthy `_id`) keeps only
      `_id` and `txt`; a new one gets the generated id, the given or the
      logged-in author, and empty lists for missing comments, likes and tags. */
  function SavedRecord(post: Post, user: Option<User>, newId: string): (r: Post)
    ensures r.txt == post.txt
    ensures post.id != "" ==> r == Post(post.id, post.txt, "", None, None, None, None, None, None, "")
    ensures post.id == "" ==>
      && r.id == newId && r.imgUrl == post.imgUrl && r.loc == post.loc
      && r.author == (if post.author != None then post.author else user)
      && r.comments == Some(OrEmpty(post.comments)) && r.likedBy == Some(OrEmpty(post.likedBy))
      && r.tags == Some(OrEmpty(post.tags))
      && r.likesCount == None && r.description == ""
  {
    if post.id != "" then Post(post.id, post.txt, "", None, None, None, None, None, None, "")
    else
      Post(newId, post.txt, post.imgUrl, if post.author != None then post.author else user, post.loc,
           Some(OrEmpty(post.comments)), Some(OrEmpty(post.likedBy)), Some(OrEmpty(post.tags)), None, "")
  }

  /* ---------------- The service ---------------- */

  /** The service over its store. `loggedinUser` is what the user service
      reports. */
  class LocalPostService {
    var store: map<string, Post>
    var loggedinUser: Option<User>

    /** Every stored post is filed under its own id. */
    predicate Valid()
      reads this
    {
      forall id :: id in store ==> store[id].id == id
    }

    constructor (posts: map<string, Post>, user: Option<User>)
      requires forall id :: id in posts ==> posts[id].id == id
      ensures store == posts && loggedinUser == user && Valid()
    {
      store := posts;
      loggedinUser := user;
    }

    function GetById(id: string): (r: Result<Post, ServiceError>)
      reads this
      ensures r == Err(PostNotFound) <==> id !in store
      ensures r.Ok? ==> r.value == store[id]
    {
      if id in store then Ok(store[id]) else Err(PostNotFound)
    }

    /** `storageService.put`: replace the post filed under its id. */
    method Put(p: Post) returns (r: Result<Post, ServiceError>)
      requires Valid()
      modifies this
      ensures Valid() && loggedinUser == old(loggedinUser)
      ensures p.id in old(store) ==> r == Ok(p) && store == old(store)[p.id := p]
      ensures p.id !in old(store) ==> r == Err(PostNotFound) && store == old(store)
    {
      if p.id in store {
        store := store[p.id := p];
        r := Ok(p);
      } else {
        r := Err(PostNotFound);
      }
    }

    /** Apply an update computed from the fetched post and store its result. */
    method Update(postId: string, u: Result<Post, ServiceError>) returns (r: Result<Post, ServiceError>)
      requires Valid() && postId in store
      requires u.Ok? ==> u.value.id == postId
      modifies this
      ensures Valid() && loggedinUser == old(loggedinUser) && r == u
      ensures store == if u.Ok? then old(store)[postId := u.value] else old(store)
    {
      if u.Ok? {
        r := Put(u.value);
      } else {
        r := u;
      }
    }

    method TogglePostLike(postId: string) returns (r: Result<Post, ServiceError>)
      requires Valid()
      modifies this
      ensures Valid() && loggedinUser == old(loggedinUser)
      ensures postId !in old(store) ==> r == Err(PostNotFound) && store == old(store)
      ensures postId in old(store) ==> r == ToggleLikeOn(old(store)[postId], loggedinUser)
      ensures store == if r.Ok? then old(store)[postId := r.value] else old(store)
    {
      var post := GetById(postId);
      if post.Err? {
        return post;
      }
      r := Update(postId, ToggleLikeOn(post.value, loggedinUser));
    }

    method ToggleLikeComment(postId: string, commentId: string, userId: string)
      returns (r: Result<CommentLike, ServiceError>)
      requires Valid()
      modifies this
      ensures Valid() && loggedinUser == old(loggedinUser)
      ensures postId !in old(store) ==> r == Err(PostNotFound) && store == old(store)
      ensures postId in old(store) ==>
        var u := ToggleLikeCommentOn(old(store)[postId], commentId, userId);
        && (u.Err? ==> r == Err(u.error) && store == old(store))
        && (u.Ok? ==> r == Ok(CommentLike(postId, commentId, userId, u.value.1))
                      && store == old(store)[postId := u.value.0])
    {
      var post := GetById(postId);
      if post.Err? {
        return Err(post.error);
      }
      var u := ToggleLikeCommentOn(post.value, commentId, userId);
      if u.Err? {
        return Err(u.error);
      }
      var saved := Put(u.value.0);
      r := Ok(CommentLike(postId, commentId, userId, u.value.1));
    }

    method DeletePostComment(postId: string, commentId: string) returns (r: Result<(string, string), ServiceError>)
      requires Valid()
      modifies this
      ensures Valid() && loggedinUser == old(loggedinUser)
      ensures postId !in old(store) ==> r == Err(PostNotFound) && store == old(store)
      ensures postId in old(store) ==>
        var u := DeleteCommentOn(old(store)[postId], commentId);
        && (u.Err? ==> r == Err(u.error) && store == old(store))
        && (u.Ok? ==> r == Ok((postId, commentId)) && store == old(store)[postId := u.value])
    {
      var post := GetById(postId);
      if post.Err? {
        return Err(post.error);
      }
      var u := Update(postId, DeleteCommentOn(post.value, commentId));
      if u.Err? {
        return Err(u.error);
      }
      r := Ok((postId, commentId));
    }

    /** `addPostComment`; `newId` and `date` stand for `makeId()` and the
        current time. */
    method AddPostComment(postId: string, txt: string, newId: string, date: string)
      returns (r: Result<(string, Comment), ServiceError>)
      requires Valid()
      modifies this
      ensures Valid() && loggedinUser == old(loggedinUser)
      ensures postId !in old(store) ==> r == Err(PostNotFound) && store == old(store)
      ensures postId in old(store) ==>
        var c := NewComment(newId, date, loggedinUser, txt);
        var u := AddCommentOn(old(store)[postId], c);
        && (u.Err? ==> r == Err(u.error) && store == old(store))
        && (u.Ok? ==> r == Ok((postId, c)) && store == old(store)[postId := u.value])
    {
      var post := GetById(postId);
      if post.Err? {
        return Err(post.error);
      }
      var comment := NewComment(newId, date, loggedinUser, txt);
      var u := Update(postId, AddCommentOn(post.value, comment));
      if u.Err? {
        return Err(u.error);
      }
      r := Ok((postId, comment));
    }

    /** `save`; `newId` stands for the id the storage generates for a new post. */
    method Save(post: Post, newId: string) returns (r: Result<Post, ServiceError>)
      requires Valid()
      modifies this
      ensures Valid() && loggedinUser == old(loggedinUser)
      ensures var rec := SavedRecord(post, loggedinUser, newId);
        && (post.id != "" && post.id !in old(store) ==> r == Err(PostNotFound) && store == old(store))
        && (post.id != "" && post.id in old(store) ==> r == Ok(rec) && store == old(store)[post.id := rec])
        && (post.id == "" ==> r == Ok(rec) && store == old(store)[newId := rec])
    {
      var toSave := SavedRecord(post, loggedinUser, newId);
      if post.id != "" {
        r := Put(toSave);
      } else {
        store := store[newId := toSave];
        r := Ok(toSave);
      }
    }
  }

  /** A like toggled twice, with a user logged in, leaves the user's like as it
      was. */
  lemma TogglePostLikeTwice(p: Post, u: User)
    requires p.likedBy != None
    ensures ToggleLikeOn(p, Some(u)).Ok?
    ensures var q := ToggleLikeOn(ToggleLikeOn(p, Some(u)).value, Some(u));
      && q.Ok?
      && (IdCount(p.likedBy.value, u.id) <= 1 ==>
            (IdCount(q.value.likedBy.value, u.id) > 0 <==> IdCount(p.likedBy.value, u.id) > 0))
      && (IdCount(p.likedBy.value, u.id) == 0 ==> q.value == p)
  {
    ToggleLikerTwice(p.likedBy.value, u);
  }

  /* ---------------- Query ---------------- */

  /** `if (likesCount)`: a threshold of 0 means no filter; otherwise a post is
      kept iff it has a count of at least the threshold (a missing count
      compares false). */
  function FilterByLikes(ps: seq<Post>, minLikes: int): (r: seq<Post>)
    ensures minLikes == 0 ==> r == ps
    ensures minLikes != 0 ==> forall p :: p in r <==> p in ps && p.likesCount != None && p.likesCount.value >= minLikes
    ensures |r| <= |ps|
  {
    if minLikes == 0 || ps == [] then ps
    else
      var rest := FilterByLikes(ps[1..], minLikes);
      assert ps == [ps[0]] + ps[1..];
      if ps[0].likesCount != None && ps[0].likesCount.value >= minLikes then [ps[0]] + rest else rest
  }

  /** The likes count a post sorts by; only meaningful when present. */
  function Likes(p: Post): int {
    if p.likesCount != None then p.likesCount.value else 0
  }

  /** The sort comparator `(a.likesCount - b.likesCount) * +sortDir`; a missing
      count or direction makes it NaN, which the sort treats as 0. */
  function Compare(a: Post, b: Post, dir: int): int {
    if a.likesCount != None && b.likesCount != None then (Likes(a) - Likes(b)) * dir else 0
  }

  /** Insert `x` before the first element it does not follow. */
  function Insert(x: Post, s: seq<Post>, dir: int): (r: seq<Post>)
    ensures multiset(r) == multiset(s) + multiset{x}
    ensures |r| == |s| + 1
  {
    if s == [] then [x]
    else if Compare(x, s[0], dir) <= 0 then [x] + s
    else
      assert s == [s[0]] + s[1..];
      [s[0]] + Insert(x, s[1..], dir)
  }

  /** A stable sort by the comparator (JavaScript's `Array.prototype.sort` is
      stable): each element goes before the later elements it does not follow. */
  function SortByLikes(s: seq<Post>, dir: int): (r: seq<Post>)
    ensures multiset(r) == multiset(s)
    ensures |r| == |s|
  {
    if s == [] then []
    else
      assert s == [s[0]] + s[1..];
      Insert(s[0], SortByLikes(s[1..], dir), dir)
  }

  predicate AllCounted(s: seq<Post>) {
    forall i :: 0 <= i < |s| ==> s[i].likesCount != None
  }

  /** Ascending by `dir * likesCount`: ascending counts for a positive
      direction, descending for a negative one. */
  predicate SortedBy(s: seq<Post>, dir: int) {
    forall i, j :: 0 <= i < j < |s| ==> dir * Likes(s[i]) <= dir * Likes(s[j])
  }

  lemma CompareIsKeyDifference(a: Post, b: Post, dir: int)
    requires a.likesCount != None && b.likesCount != None
    ensures Compare(a, b, dir) == dir * Likes(a) - dir * Likes(b)
  {
    assert (Likes(a) - Likes(b)) * dir == dir * Likes(a) - dir * Likes(b);
  }

  /** A post no greater than every post of a sorted list can go in front. */
  lemma ConsSorted(h: Post, t: seq<Post>, dir: int)
    requires SortedBy(t, dir) && forall p :: p in t ==> dir * Likes(h) <= dir * Likes(p)
    ensures SortedBy([h] + t, dir)
  {
    var r := [h] + t;
    forall i, j | 0 <= i < j < |r| ensures dir * Likes(r[i]) <= dir * Likes(r[j]) {
      if i == 0 {
        assert r[j] == t[j - 1] && t[j - 1] in t;
      } else {
        assert r[i] == t[i - 1] && r[j] == t[j - 1];
      }
    }
  }

  lemma {:induction false} InsertMembers(x: Post, s: seq<Post>, dir: int)
    ensures forall p :: p in Insert(x, s, dir) <==> p in s || p == x
    decreases |s|
  {
    if s != [] && Compare(x, s[0], dir) > 0 {
      InsertMembers(x, s[1..], dir);
      assert s == [s[0]] + s[1..];
    }
  }

  lemma InsertCounted(x: Post, s: seq<Post>, dir: int)
    requires x.likesCount != None && AllCounted(s)
    ensures AllCounted(Insert(x, s, dir))
  {
    var r := Insert(x, s, dir);
    InsertMembers(x, s, dir);
    forall i | 0 <= i < |r| ensures r[i].likesCount != None {
      assert r[i] in r;
      if r[i] != x {
        var k :| 0 <= k < |s| && s[k] == r[i];
      }
    }
  }

  lemma {:induction false} InsertSorted(x: Post, s: seq<Post>, dir: int)
    requires x.likesCount != None && AllCounted(s) && SortedBy(s, dir)
    ensures SortedBy(Insert(x, s, dir), dir)
    decreases |s|
  {
    if s != [] {
      CompareIsKeyDifference(x, s[0], dir);
      if Compare(x, s[0], dir) <= 0 {
        forall p | p in s ensures dir * Likes(x) <= dir * Likes(p) {
          var k :| 0 <= k < |s| && s[k] == p;
          assert k == 0 || dir * Likes(s[0]) <= dir * Likes(s[k]);
        }
        ConsSorted(x, s, dir);
      } else {
        var t := s[1..];
        assert SortedBy(t, dir) && AllCounted(t) by {
          assert forall i :: 0 <= i < |t| ==> t[i] == s[i + 1];
        }
        InsertSorted(x, t, dir);
        var rt := Insert(x, t, dir);
        InsertMembers(x, t, dir);
        forall p | p in rt ensures dir * Likes(s[0]) <= dir * Likes(p) {
          if p != x {
            var k :| 0 <= k < |t| && t[k] == p;
            assert t[k] == s[k + 1];
          }
        }
        ConsSorted(s[0], rt, dir);
      }
    }
  }

  /** With every count present the sort orders by the count in the given
      direction; it always rearranges the posts without losing or adding any. */
  lemma {:induction false} SortByLikesSorts(s: seq<Post>, dir: int)
    requires AllCounted(s)
    ensures SortedBy(SortByLikes(s, dir), dir) && AllCounted(SortByLikes(s, dir))
    decreases |s|
  {
    if s != [] {
      var t := s[1..];
      assert forall i :: 0 <= i < |t| ==> t[i] == s[i + 1];
      SortByLikesSorts(t, dir);
      InsertSorted(s[0], SortByLikes(t, dir), dir);
      InsertCounted(s[0], SortByLikes(t, dir), dir);
    }
  }

  /** With no direction every comparison is 0, and the stable sort keeps the
      order. */
  lemma {:induction false} SortWithoutDirectionKeepsOrder(s: seq<Post>)
    ensures SortByLikes(s, 0) == s
    decreases |s|
  {
    if s != [] {
      SortWithoutDirectionKeepsOrder(s[1..]);
      assert Insert(s[0], s[1..], 0) == [s[0]] + s[1..];
      HeadTail(s);
    }
  }

  /** The projection keeps `_id, txt, imgUrl, by, loc, comments, likedBy, tags`. */
  function Project(p: Post): (r: Post)
    ensures r.id == p.id && r.txt == p.txt && r.imgUrl == p.imgUrl && r.author == p.author
    ensures r.loc == p.loc && r.comments == p.comments && r.likedBy == p.likedBy && r.tags == p.tags
    ensures r.likesCount == None && r.description == ""
  {
    Post(p.id, p.txt, p.imgUrl, p.author, p.loc, p.comments, p.likedBy, p.tags, None, "")
  }

  function ProjectAll(ps: seq<Post>): (r: seq<Post>)
    ensures |r| == |ps| && forall i :: 0 <= i < |ps| ==> r[i] == Project(ps[i])
  {
    if ps == [] then [] else [Project(ps[0])] + ProjectAll(ps[1..])
  }

  /** `query` without the text filter and the text sort: likes filter, then
      the likes sort when asked for, then the projection. */
  function Query(stored: seq<Post>, minLikes: int, sortByLikes: bool, sortDir: int): seq<Post> {
    var filtered := FilterByLikes(stored, minLikes);
    ProjectAll(if sortByLikes then SortByLikes(filtered, sortDir) else filtered)
  }

  /** The query returns the projections of exactly the posts that pass the
      filter, each as often as it passes; sorted by likes when asked for and
      every count is present; in stored order when no sort applies. */
  lemma QueryResult(stored: seq<Post>, minLikes: int, sortByLikes: bool, sortDir: int)
    ensures var filtered := FilterByLikes(stored, minLikes);
      var r := Query(stored, minLikes, sortByLikes, sortDir);
      && |r| == |filtered|
      && (!sortByLikes || sortDir == 0 ==> r == ProjectAll(filtered))
      && (sortByLikes ==> r == ProjectAll(SortByLikes(filtered, sortDir))
                          && multiset(SortByLikes(filtered, sortDir)) == multiset(filtered))
      && (sortByLikes && AllCounted(filtered) ==> SortedBy(SortByLikes(filtered, sortDir), sortDir))
  {
    var filtered := FilterByLikes(stored, minLikes);
    var sorted := if sortByLikes then SortByLikes(filtered, sortDir) else filtered;
    if sortByLikes && sortDir == 0 {
      SortWithoutDirectionKeepsOrder(filtered);
    }
    if sortByLikes && AllCounted(filtered) {
      SortByLikesSorts(filtered, sortDir);
    }
  }

  /** With a threshold, every entry of the result is the projection of a
      stored post whose count is present and reaches it. */
  lemma QueryEntries(stored: seq<Post>, minLikes: int, sortByLikes: bool, sortDir: int)
    requires minLikes != 0
    ensures var r := Query(stored, minLikes, sortByLikes, sortDir);
      forall i :: 0 <= i < |r| ==>
        exists p :: p in stored && p.likesCount != None && p.likesCount.value >= minLikes && r[i] == Project(p)
  {
    var filtered := FilterByLikes(stored, minLikes);
    var sorted := if sortByLikes then SortByLikes(filtered, sortDir) else filtered;
    var r := Query(stored, minLikes, sortByLikes, sortDir);
    assert r == ProjectAll(sorted);
    forall i | 0 <= i < |r|
      ensures exists p :: p in stored && p.likesCount != None && p.likesCount.value >= minLikes && r[i] == Project(p)
    {
      assert sorted[i] in multiset(sorted);
      assert sorted[i] in filtered;
      assert r[i] == Project(sorted[i]);
    }
  }

}
