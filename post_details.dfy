/**
 * The post details panel (src/cmps/PostDetailsContent.jsx): optimistic
 * comment and like updates on the panel's own comment list, the post like
 * flag, and bounded navigation between the posts of a list. The calls into
 * the store (`addPostComment`, `deletePostComment`, `toggleLikeComment`,
 * `addPostLike`) are not part of this model; the panel's state is.
 */
module PostDetails {
  import opened Wrappers
  import opened Js
  import opened Entities
  import PostService
  import opened Basics

  /* ---------------- Navigation ---------------- */

  /** `handlePrev`: the index to navigate to, if any. */
  function PrevTarget(currentIndex: int, canNavigate: bool): Option<int> {
    if currentIndex > 0 && canNavigate then Some(currentIndex - 1) else None
  }

  /** `handleNext`: the index to navigate to, if any; `posts` is `None` when
      the panel has no list. */
  function NextTarget(posts: Option<seq<Post>>, currentIndex: int, canNavigate: bool): Option<int> {
    if posts != None && currentIndex < |posts.value| - 1 && canNavigate then Some(currentIndex + 1) else None
  }

  /** From a position in the list, prev and next move one step and never leave
      the list; prev does nothing on the first post and next on the last. */
  lemma NavigationStaysInRange(posts: seq<Post>, i: int, canNavigate: bool)
    requires 0 <= i < |posts|
    ensures var p := PrevTarget(i, canNavigate);
      (p == None <==> i == 0 || !canNavigate) && (p != None ==> p.value == i - 1 && 0 <= p.value < |posts|)
    ensures var n := NextTarget(Some(posts), i, canNavigate);
      (n == None <==> i == |posts| - 1 || !canNavigate) && (n != None ==> n.value == i + 1 && 0 <= n.value < |posts|)
  {
  }

  /* ---------------- Likes ---------------- */

  /** `post?.likedBy?.some(user => user._id === loggedinUser._id)`, false with
      nobody logged in (an absent post or list gives `undefined`, which is
      falsy). */
  function InitiallyLiked(post: Option<Post>, user: Option<User>): (b: bool)
    ensures b <==> user != None && post != None && post.value.likedBy != None
                   && exists v :: v in post.value.likedBy.value && v.id == user.value.id
  {
    if user == None || post == None || post.value.likedBy == None then false
    else AnyWithId(post.value.likedBy.value, user.value.id)
  }

  function AnyWithId(s: seq<User>, id: string): (b: bool)
    ensures b <==> exists v :: v in s && v.id == id
  {
    if s == [] then false
    else
      assert s == [s[0]] + s[1..];
      s[0].id == id || AnyWithId(s[1..], id)
  }

  /** `likedBy.filter(id => id !== x)`. */
  function WithoutId(s: seq<string>, x: string): (r: seq<string>)
    ensures x !in r
    ensures forall y :: y != x ==> (y in r <==> y in s)
    ensures multiset(r) == multiset(s)[x := 0]
    ensures |r| == |s| - multiset(s)[x]
  {
    if s == [] then []
    else
      assert s == [s[0]] + s[1..];
      (if s[0] == x then [] else [s[0]]) + WithoutId(s[1..], x)
  }

  /** The filter distributes over concatenation: the kept ids keep their order. */
  lemma {:induction false} WithoutIdAppend(a: seq<string>, b: seq<string>, x: string)
    ensures WithoutId(a + b, x) == WithoutId(a, x) + WithoutId(b, x)
    decreases |a|
  {
    if a == [] {
      assert a + b == b;
    } else {
      ConsAppend(a, b);
      WithoutIdAppend(a[1..], b, x);
      var head := if a[0] == x then [] else [a[0]];
      assert WithoutId(a + b, x) == head + WithoutId(a[1..] + b, x);
      AppendAssoc(head, WithoutId(a[1..], x), WithoutId(b, x));
    }
  }

  /** Whether the comment's likes include the user. */
  predicate Likes(c: Comment, userId: string) {
    c.likedBy != None && userId in c.likedBy.value
  }

  /** The optimistic like toggle of one comment: unlike removes every entry of
      the user, like appends the user. */
  function ToggleCommentLike(c: Comment, userId: string): (r: Comment)
    ensures Likes(r, userId) == !Likes(c, userId)
    ensures r.(likedBy := c.likedBy) == c
    ensures r.likedBy != None && forall y :: y != userId ==> (y in r.likedBy.value <==> y in OrEmpty(c.likedBy))
    ensures !Likes(c, userId) ==> r.likedBy == Some(OrEmpty(c.likedBy) + [userId])
    ensures Likes(c, userId) ==> r.likedBy == Some(WithoutId(c.likedBy.value, userId))
    ensures Likes(c, userId) ==> multiset(r.likedBy.value) == multiset(c.likedBy.value)[userId := 0]
    ensures |r.likedBy.value| == if Likes(c, userId)
      then |c.likedBy.value| - multiset(c.likedBy.value)[userId]
      else |OrEmpty(c.likedBy)| + 1
  {
    if Likes(c, userId) then c.(likedBy := Some(WithoutId(c.likedBy.value, userId)))
    else c.(likedBy := Some(OrEmpty(c.likedBy) + [userId]))
  }

  /** `comments.map(...)` with the toggle applied to every comment with the id. */
  function ToggleLikeById(cs: seq<Comment>, commentId: string, userId: string): (r: seq<Comment>)
    ensures |r| == |cs|
    ensures forall i :: 0 <= i < |cs| ==>
      r[i] == if cs[i].id == commentId then ToggleCommentLike(cs[i], userId) else cs[i]
  {
    if cs == [] then [] else
      [if cs[0].id == commentId then ToggleCommentLike(cs[0], userId) else cs[0]]
      + ToggleLikeById(cs[1..], commentId, userId)
  }

  /** Only the comments with the id change, and only in their likes, whose
      inclusion of the user flips; toggling twice restores the user's like on
      every comment. */
  lemma ToggleLikeByIdEffect(cs: seq<Comment>, commentId: string, userId: string)
    ensures var r := ToggleLikeById(cs, commentId, userId);
      forall i :: 0 <= i < |cs| ==>
        && r[i].(likedBy := cs[i].likedBy) == cs[i]
        && (Likes(r[i], userId) <==> (cs[i].id == commentId) != Likes(cs[i], userId))
    ensures var r2 := ToggleLikeById(ToggleLikeById(cs, commentId, userId), commentId, userId);
      forall i :: 0 <= i < |cs| ==> Likes(r2[i], userId) == Likes(cs[i], userId) && r2[i].id == cs[i].id
  {
  }

  /* ---------------- Comments ---------------- */

  /** The optimistic comment: no id yet (the store assigns one), the current
      time, the author's `{_id, fullname, imgUrl}`, no likes key. */
  function DraftComment(txt: string, date: string, u: User): (c: Comment)
    ensures c.txt == txt && c.author == Some(Brief(u)) && c.likedBy == None && c.id == ""
  {
    Comment("", date, Some(Brief(u)), txt, None)
  }

  /** The panel's state; the props `post`, `posts`, `currentIndex` and the
      presence of `onNavigate` are fields the parent replaces. */
  class PostDetailsPanel {
    var post: Option<Post>
    var loggedinUser: Option<User>
    var comments: seq<Comment>
    var isLiked: bool
    var commentTxt: string

    constructor (p: Option<Post>, user: Option<User>)
      ensures post == p && loggedinUser == user && commentTxt == ""
      ensures comments == (if p != None then OrEmpty(p.value.comments) else [])
      ensures isLiked == InitiallyLiked(p, user)
    {
      post := p;
      loggedinUser := user;
      commentTxt := "";
      comments := if p != None then OrEmpty(p.value.comments) else [];
      isLiked := InitiallyLiked(p, user);
    }

    /** The effect on `[post, loggedinUser]`: reload the comments and the like flag. */
    method PropsChanged(p: Option<Post>, user: Option<User>)
      modifies this
      ensures post == p && loggedinUser == user && commentTxt == old(commentTxt)
      ensures comments == (if p != None then OrEmpty(p.value.comments) else [])
      ensures isLiked == InitiallyLiked(p, user)
    {
      post := p;
      loggedinUser := user;
      comments := if p != None then OrEmpty(p.value.comments) else [];
      isLiked := InitiallyLiked(p, user);
    }

    method SetCommentTxt(txt: string)
      modifies this
      ensures commentTxt == txt
      ensures post == old(post) && loggedinUser == old(loggedinUser) && comments == old(comments) && isLiked == old(isLiked)
    {
      commentTxt := txt;
    }

    /** `handleLike`: the flag flips at once. */
    method HandleLike()
      modifies this
      ensures isLiked == !old(isLiked)
      ensures post == old(post) && loggedinUser == old(loggedinUser) && comments == old(comments) && commentTxt == old(commentTxt)
    {
      isLiked := !isLiked;
    }

    /** `handleAddComment`; returns the text sent to the store, if any. A blank
        text is ignored; with nobody logged in reading the user's id throws
        before any change. */
    method HandleAddComment(date: string) returns (sent: Option<string>)
      modifies this
      ensures post == old(post) && loggedinUser == old(loggedinUser) && isLiked == old(isLiked)
      ensures IsBlank(old(commentTxt)) || loggedinUser == None ==>
        sent == None && comments == old(comments) && commentTxt == old(commentTxt)
      ensures !IsBlank(old(commentTxt)) && loggedinUser != None ==>
        && sent == Some(old(commentTxt)) && commentTxt == ""
        && comments == old(comments) + [DraftComment(old(commentTxt), date, loggedinUser.value)]
    {
      if Trim(commentTxt) == [] {
        return None;
      }
      if loggedinUser == None {
        return None;
      }
      var newComment := DraftComment(commentTxt, date, loggedinUser.value);
      comments := comments + [newComment];
      sent := Some(commentTxt);
      commentTxt := "";
    }

    /** `handleDeleteComment`: the comment leaves the list at once. */
    method HandleDeleteComment(commentId: string)
      modifies this
      ensures comments == PostService.RemoveComments(old(comments), commentId)
      ensures post == old(post) && loggedinUser == old(loggedinUser) && isLiked == old(isLiked) && commentTxt == old(commentTxt)
    {
      comments := PostService.RemoveComments(comments, commentId);
    }

    /** `handleToggleLikeComment`. With nobody logged in the handler throws
        (inside its `try`) before the list changes. */
    method HandleToggleLikeComment(commentId: string)
      modifies this
      ensures loggedinUser == None ==> comments == old(comments)
      ensures loggedinUser != None ==> comments == ToggleLikeById(old(comments), commentId, loggedinUser.value.id)
      ensures post == old(post) && loggedinUser == old(loggedinUser) && isLiked == old(isLiked) && commentTxt == old(commentTxt)
    {
      if loggedinUser != None {
        comments := ToggleLikeById(comments, commentId, loggedinUser.value.id);
      }
    }
  }

  /** A comment added here has no id, so deleting by the id of any stored
      comment keeps it: it stays until the panel reloads its comments. */
  lemma DraftSurvivesDelete(cs: seq<Comment>, txt: string, date: string, u: User, commentId: string)
    requires commentId != ""
    ensures DraftComment(txt, date, u) in PostService.RemoveComments(cs + [DraftComment(txt, date, u)], commentId)
  {
  }

}
