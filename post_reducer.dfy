/**
 * The post store reducer (src/store/reducers/post.reducer.js): a pure state
 * transition over the feed's post list, the post page's current post and the
 * last removed post.
 */
module PostReducer {
  import opened Wrappers
  import opened Entities
  import opened Basics

  /** `post` is `null` when no post page is open; `lastRemovedPost` is absent
      until a removal and `undefined` after a removal that matched nothing,
      both modelled as `None`. */
  datatype State = State(posts: seq<Post>, post: Option<Post>, lastRemovedPost: Option<Post>)

  const InitialState: State := State([], None, None)

  /** The action types; any other `type` string is `Unknown`. `action.comment`
      is `None` when missing or falsy. */
  datatype Action =
    | SetPosts(posts: seq<Post>)
    | SetPost(current: Option<Post>)
    | RemovePost(postId: string)
    | AddPost(post: Post)
    | UpdatePost(post: Post)
    | AddPostComment(postId: string, comment: Option<Comment>)
    | Unknown

  /** `posts.find(post => post._id === id)`. */
  function Find(ps: seq<Post>, id: string): (r: Option<Post>)
    ensures r == None <==> forall i :: 0 <= i < |ps| ==> ps[i].id != id
    ensures r != None ==> exists i :: 0 <= i < |ps| && ps[i] == r.value && ps[i].id == id
                                      && forall j :: 0 <= j < i ==> ps[j].id != id
  {
    if ps == [] then None
    else if ps[0].id == id then Some(ps[0])
    else
      var r := Find(ps[1..], id);
      assert forall i :: 0 < i < |ps| ==> ps[i] == ps[1..][i - 1];
      if r == None then r
      else
        var k :| 0 <= k < |ps[1..]| && ps[1..][k] == r.value && ps[1..][k].id == id
          && forall j :: 0 <= j < k ==> ps[1..][j].id != id;
        assert ps[k + 1] == r.value && forall j :: 0 <= j < k + 1 ==> ps[j].id != id;
        r
  }

  /** `posts.filter(post => post._id !== id)`: every post with another id is
      kept, no post with the id survives. */
  function RemoveId(ps: seq<Post>, id: string): (r: seq<Post>)
    ensures forall p :: p in r <==> p in ps && p.id != id
    ensures |r| <= |ps|
    ensures (forall i :: 0 <= i < |ps| ==> ps[i].id != id) ==> r == ps
  {
    if ps == [] then []
    else if ps[0].id == id then RemoveId(ps[1..], id)
    else [ps[0]] + RemoveId(ps[1..], id)
  }

  /** Filtering distributes over concatenation, so the survivors keep their order. */
  lemma {:induction false} RemoveIdAppend(a: seq<Post>, b: seq<Post>, id: string)
    ensures RemoveId(a + b, id) == RemoveId(a, id) + RemoveId(b, id)
    decreases |a|
  {
    if a == [] {
      assert a + b == b;
    } else {
      ConsAppend(a, b);
      RemoveIdAppend(a[1..], b, id);
      if a[0].id != id {
        assert RemoveId(a + b, id) == [a[0]] + RemoveId(a[1..] + b, id);
        AppendAssoc([a[0]], RemoveId(a[1..], id), RemoveId(b, id));
      }
    }
  }

  /** `posts.map(post => post._id === p._id ? p : post)`. */
  function ReplaceById(ps: seq<Post>, p: Post): (r: seq<Post>)
    ensures |r| == |ps|
    ensures forall i :: 0 <= i < |ps| ==> r[i] == if ps[i].id == p.id then p else ps[i]
  {
    if ps == [] then []
    else [if ps[0].id == p.id then p else ps[0]] + ReplaceById(ps[1..], p)
  }

  /** `{ ...post, comments: [...(post.comments || []), comment] }`. */
  function WithComment(p: Post, c: Comment): (r: Post)
    ensures r.comments == Some(OrEmpty(p.comments) + [c])
    ensures r.(comments := p.comments) == p
  {
    p.(comments := Some(OrEmpty(p.comments) + [c]))
  }

  /** The `posts.map` that appends the comment to every post with the id. */
  function CommentById(ps: seq<Post>, id: string, c: Comment): (r: seq<Post>)
    ensures |r| == |ps|
    ensures forall i :: 0 <= i < |ps| ==> r[i] == if ps[i].id == id then WithComment(ps[i], c) else ps[i]
  {
    if ps == [] then []
    else [if ps[0].id == id then WithComment(ps[0], c) else ps[0]] + CommentById(ps[1..], id, c)
  }

  /** The guard of `ADD_POST_COMMENT`; when it fails the case falls through to
      `default`. */
  predicate CommentApplies(s: State, id: string, c: Option<Comment>) {
    c != None && s.post != None && s.post.value.id == id
  }

  /** `postReducer`. */
  function Reduce(s: State, a: Action): State {
    match a
    case SetPosts(ps) => s.(posts := ps)
    case SetPost(p) => s.(post := p)
    case RemovePost(id) => s.(posts := RemoveId(s.posts, id), lastRemovedPost := Find(s.posts, id))
    case AddPost(p) => s.(posts := s.posts + [p])
    case UpdatePost(p) =>
      s.(posts := ReplaceById(s.posts, p),
         post := if s.post != None && s.post.value.id == p.id then Some(p) else s.post)
    case AddPostComment(id, c) =>
      if CommentApplies(s, id, c) then
        s.(post := if s.post != None && s.post.value.id == id then Some(WithComment(s.post.value, c.value)) else s.post,
           posts := CommentById(s.posts, id, c.value))
      else s
    case Unknown => s
  }

  /** SET_POSTS and SET_POST replace one field each and keep the rest. */
  lemma SettersReplaceOneField(s: State, ps: seq<Post>, p: Option<Post>)
    ensures Reduce(s, SetPosts(ps)) == State(ps, s.post, s.lastRemovedPost)
    ensures Reduce(s, SetPost(p)) == State(s.posts, p, s.lastRemovedPost)
  {
  }

  /** REMOVE_POST drops every post with the id, keeps every other post, and
      records the first match (none when nothing matched); the post page's
      post is untouched. */
  lemma RemovePostEffect(s: State, id: string)
    ensures var r := Reduce(s, RemovePost(id));
      && (forall p :: p in r.posts <==> p in s.posts && p.id != id)
      && r.post == s.post
      && (r.lastRemovedPost == None <==> forall p :: p in s.posts ==> p.id != id)
      && (r.lastRemovedPost != None ==>
            exists i :: 0 <= i < |s.posts| && s.posts[i] == r.lastRemovedPost.value
              && s.posts[i].id == id && forall j :: 0 <= j < i ==> s.posts[j].id != id)
  {
    var r := Find(s.posts, id);
    if r == None {
      forall p | p in s.posts ensures p.id != id {
        var i :| 0 <= i < |s.posts| && s.posts[i] == p;
      }
    }
  }

  /** ADD_POST appends at the end: one post longer, the old posts first. */
  lemma AddPostAppends(s: State, p: Post)
    ensures var r := Reduce(s, AddPost(p));
      |r.posts| == |s.posts| + 1 && r.posts[..|s.posts|] == s.posts && r.posts[|s.posts|] == p
      && r.post == s.post && r.lastRemovedPost == s.lastRemovedPost
  {
  }

  /** Removing a just-added post whose id was new restores the list and
      records that post as removed. */
  lemma AddThenRemove(s: State, p: Post)
    requires forall q :: q in s.posts ==> q.id != p.id
    ensures var r := Reduce(Reduce(s, AddPost(p)), RemovePost(p.id));
      r.posts == s.posts && r.lastRemovedPost == Some(p) && r.post == s.post
  {
    assert forall i :: 0 <= i < |s.posts| ==> s.posts[i] in s.posts;
    RemoveIdAppend(s.posts, [p], p.id);
    assert RemoveId([p], p.id) == [];
    var ps := s.posts + [p];
    var f := Find(ps, p.id);
    assert ps[|s.posts|] == p;
    assert f != None;
    var i :| 0 <= i < |ps| && ps[i] == f.value && ps[i].id == p.id && forall j :: 0 <= j < i ==> ps[j].id != p.id;
    if i < |s.posts| {
      assert false;
    }
  }

  /** UPDATE_POST replaces exactly the posts with a matching id, keeps the
      length, and replaces the page's post only when its id matches. */
  lemma UpdatePostEffect(s: State, p: Post)
    ensures var r := Reduce(s, UpdatePost(p));
      && |r.posts| == |s.posts|
      && (forall i :: 0 <= i < |s.posts| ==> r.posts[i] == if s.posts[i].id == p.id then p else s.posts[i])
      && (s.post != None && s.post.value.id == p.id ==> r.post == Some(p))
      && (s.post == None || s.post.value.id != p.id ==> r.post == s.post)
      && r.lastRemovedPost == s.lastRemovedPost
  {
  }

  /** ADD_POST_COMMENT under its guard appends the comment, as the last one,
      to the page's post and to every post with the id, treating missing
      comments as none; the other posts are unchanged. */
  lemma AddCommentEffect(s: State, id: string, c: Comment)
    requires s.post != None && s.post.value.id == id
    ensures var r := Reduce(s, AddPostComment(id, Some(c)));
      && r.post == Some(s.post.value.(comments := Some(OrEmpty(s.post.value.comments) + [c])))
      && |r.posts| == |s.posts|
      && (forall i :: 0 <= i < |s.posts| && s.posts[i].id != id ==> r.posts[i] == s.posts[i])
      && (forall i :: 0 <= i < |s.posts| && s.posts[i].id == id ==>
            OrEmpty(r.posts[i].comments) == OrEmpty(s.posts[i].comments) + [c]
            && r.posts[i].(comments := s.posts[i].comments) == s.posts[i])
      && r.lastRemovedPost == s.lastRemovedPost
  {
  }

  /** Without a comment, without a page post, or for another post, the case
      falls through to `default`: the state is unchanged, so the feed misses the
      comment even when it shows that post. */
  lemma AddCommentFallsThrough(s: State, id: string, c: Option<Comment>)
    requires !CommentApplies(s, id, c)
    ensures Reduce(s, AddPostComment(id, c)) == s
    ensures s.post == None && c != None ==> Reduce(s, AddPostComment(id, c)).posts == s.posts
  {
  }

  /** An unknown action returns the state it was given. */
  lemma UnknownIsIdentity(s: State)
    ensures Reduce(s, Unknown) == s
  {
  }

  /** The reducer never invents a removed post: `lastRemovedPost` changes only
      on REMOVE_POST, and then to a post that was in the list. */
  lemma LastRemovedComesFromList(s: State, a: Action)
    ensures var r := Reduce(s, a);
      !a.RemovePost? ==> r.lastRemovedPost == s.lastRemovedPost
    ensures var r := Reduce(s, a);
      a.RemovePost? && r.lastRemovedPost != None ==>
        r.lastRemovedPost.value in s.posts && r.lastRemovedPost.value !in r.posts
  {
    if a.RemovePost? && Reduce(s, a).lastRemovedPost != None {
      RemovePostEffect(s, a.postId);
    }
  }

}
