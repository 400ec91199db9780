/**
 * The Galaxy browsing state machine (src/cmps/GalaxyMode/GalaxyMode.jsx).
 *
 * The component's state (`selectedPhotoIndex`, `isPhotoViewMode`,
 * `showWelcome`, `cameraPermissionGranted`) changes in event handlers and in
 * three effects. React's scheduling is modelled explicitly: after each event
 * the component re-renders, and an effect runs in a render when one of its
 * dependencies differs from the previous render. The effects of one render
 * read the values of that render; their state updates are queued in
 * declaration order (a functional update sees the queued value) and applied
 * together. Rendering repeats until a render changes no state (`Settle`).
 *
 * The 500 ms exit timer is a pending deadline: arming it records
 * `now + 500`, the effect's cleanup (which runs before the effect runs again)
 * cancels it, and `Tick(now)` fires it once it is due.
 */
module GalaxyMode {
  import opened Wrappers
  import opened Js
  import opened Entities
  import opened Basics
  import opened HandTracking

  /* ---------------- Photos and index arithmetic ---------------- */

  /** `posts.filter(post => post.imgUrl)`. */
  function Photos(posts: seq<Post>): (r: seq<Post>)
    ensures |r| <= |posts|
    ensures forall p :: p in r ==> p in posts && p.imgUrl != ""
  {
    if posts == [] then []
    else (if posts[0].imgUrl != "" then [posts[0]] else []) + Photos(posts[1..])
  }

  /** Filtering distributes over concatenation, so the photos keep the posts' order. */
  lemma {:induction false} PhotosAppend(a: seq<Post>, b: seq<Post>)
    ensures Photos(a + b) == Photos(a) + Photos(b)
  {
    if a == [] {
      assert a + b == b;
    } else {
      var head := if a[0].imgUrl != "" then [a[0]] else [];
      ConsAppend(a, b);
      PhotosAppend(a[1..], b);
      assert Photos(a + b) == head + Photos(a[1..] + b);
      AppendAssoc(head, Photos(a[1..]), Photos(b));
    }
  }

  /** A post is a photo exactly when it is one of the posts and has an image URL. */
  lemma {:induction false} PhotosMembers(posts: seq<Post>, p: Post)
    ensures p in Photos(posts) <==> p in posts && p.imgUrl != ""
  {
    if posts != [] {
      PhotosMembers(posts[1..], p);
      assert posts == [posts[0]] + posts[1..];
    }
  }

  /** `photos.findIndex(p => p._id === id)`. */
  function FindIndex(ps: seq<Post>, id: string): (r: int)
    ensures -1 <= r < |ps|
    ensures r == -1 <==> forall i :: 0 <= i < |ps| ==> ps[i].id != id
    ensures r >= 0 ==> ps[r].id == id && forall j :: 0 <= j < r ==> ps[j].id != id
  {
    if ps == [] then -1
    else if ps[0].id == id then 0
    else
      var k := FindIndex(ps[1..], id);
      assert forall i :: 1 <= i < |ps| ==> ps[i] == ps[1..][i - 1];
      if k == -1 then -1 else k + 1
  }

  /** Moving right: `prev === null ? 0 : (prev + 1) % n`. */
  function Next(i: Option<int>, n: int): int
    requires n > 0
  {
    match i
    case None => 0
    case Some(k) => Rem(k + 1, n)
  }

  /** Moving left: `prev === null ? n - 1 : (prev - 1 + n) % n`. */
  function Prev(i: Option<int>, n: int): int
    requires n > 0
  {
    match i
    case None => n - 1
    case Some(k) => Rem(k - 1 + n, n)
  }

  /** From no selection, from any index in range, or from the -1 that
      `findIndex` gives for a missing photo, both moves land in [0, n - 1]. */
  lemma WrapInRange(i: Option<int>, n: int)
    requires n > 0
    requires i == None || i.value >= -1
    ensures 0 <= Next(i, n) < n && 0 <= Prev(i, n) < n
  {
  }

  /** Within range the two moves undo each other; moving left from the first
      photo wraps to the last and moving right from the last wraps to the first. */
  lemma NextPrevInverse(k: int, n: int)
    requires 0 <= k < n
    ensures Prev(Some(Next(Some(k), n)), n) == k
    ensures Next(Some(Prev(Some(k), n)), n) == k
    ensures k == 0 ==> Prev(Some(k), n) == n - 1
    ensures k == n - 1 ==> Next(Some(k), n) == 0
  {
    RemSmall(k + 1, n);
    RemSmall(k - 1 + n, n);
    var j := Rem(k + 1, n);
    RemSmall(j - 1 + n, n);
    var i := Rem(k - 1 + n, n);
    RemSmall(i + 1, n);
  }

  /* ---------------- Component state ---------------- */

  /** The rendered values: the props and the hand-tracking values the
      component receives, and its own four state variables. */
  datatype Ui = Ui(
    isOpen: bool,
    posts: seq<Post>,
    gesture: Option<string>,
    swipe: Option<Swipe>,
    selected: Option<int>,
    photoView: bool,
    welcome: bool,
    permission: bool)

  /** The component with its pending exit timer. */
  datatype Galaxy = Galaxy(ui: Ui, exitDeadline: Option<int>)

  const ExitDelayMs: int := 500

  /** `AsWritten` is the Victory effect of the source; `Corrected` also
      requires the mode to be open (see README, Findings). */
  datatype Variant = AsWritten | Corrected

  function PhotoCount(u: Ui): nat {
    |Photos(u.posts)|
  }

  predicate IsVictory(g: Option<string>) {
    g == Some(VictoryName)
  }

  /** `isOpen && cameraPermissionGranted`: whether hand tracking runs. */
  predicate TrackingEnabled(u: Ui) {
    u.isOpen && u.permission
  }

  /** `photos[selectedPhotoIndex]`, or nothing for no index or one out of range. */
  function SelectedPhoto(u: Ui): Option<Post> {
    match u.selected
    case Some(i) => if 0 <= i < PhotoCount(u) then Some(Photos(u.posts)[i]) else None
    case None => None
  }

  /** The photo viewer, with its close and navigation buttons, is on screen. */
  predicate ViewerShown(u: Ui) {
    u.isOpen && !u.welcome && u.photoView && SelectedPhoto(u) != None
  }

  /* Dependencies of the three effects that change state. */

  predicate VictoryDepsChanged(prev: Option<Ui>, cur: Ui) {
    match prev
    case None => true
    case Some(p) =>
      p.gesture != cur.gesture || p.photoView != cur.photoView
      || PhotoCount(p) != PhotoCount(cur) || p.selected != cur.selected
  }

  predicate SwipeDepsChanged(prev: Option<Ui>, cur: Ui) {
    match prev
    case None => true
    case Some(p) => p.swipe != cur.swipe || p.photoView != cur.photoView || PhotoCount(p) != PhotoCount(cur)
  }

  predicate OpenDepsChanged(prev: Option<Ui>, cur: Ui) {
    match prev
    case None => true
    case Some(p) => p.isOpen != cur.isOpen
  }

  /** The first branch of the Victory effect. */
  predicate EntersPhotoView(cur: Ui, v: Variant) {
    IsVictory(cur.gesture) && (v == Corrected ==> cur.isOpen) && !cur.photoView && PhotoCount(cur) > 0
  }

  /** The second branch of the Victory effect: it arms the exit timer. */
  predicate ArmsExit(cur: Ui) {
    !IsVictory(cur.gesture) && cur.photoView
  }

  /** The Victory effect, when its dependencies changed: it enters photo view
      (selecting the first photo if none is selected) or arms the exit
      timer; either way it cancels a pending exit first. */
  function VictoryEffect(prev: Option<Ui>, cur: Ui, exit: Option<int>, now: int, v: Variant): Galaxy {
    if !VictoryDepsChanged(prev, cur) then Galaxy(cur, exit)
    else if EntersPhotoView(cur, v) then
      Galaxy(cur.(photoView := true, selected := if cur.selected == None then Some(0) else cur.selected), None)
    else Galaxy(cur, if ArmsExit(cur) then Some(now + ExitDelayMs) else None)
  }

  /** The swipe effect, judged on the render's values `cur`, moving the
      latest selection in `u`. */
  function SwipeEffect(prev: Option<Ui>, cur: Ui, u: Ui): Ui {
    var n := PhotoCount(cur);
    if SwipeDepsChanged(prev, cur) && cur.swipe != None && cur.photoView && n > 0 then
      u.(selected := Some(if cur.swipe == Some(SwipeRight) then Next(u.selected, n) else Prev(u.selected, n)))
    else u
  }

  /** The close effect: closing the mode resets the viewer and the welcome screen. */
  function OpenEffect(prev: Option<Ui>, cur: Ui, u: Ui): Ui {
    if OpenDepsChanged(prev, cur) && !cur.isOpen then
      u.(selected := None, photoView := false, welcome := true, permission := false)
    else u
  }

  /** One render: the effects whose dependencies changed since `prev` run
      against `cur`, in declaration order. */
  function Round(prev: Option<Ui>, cur: Ui, exit: Option<int>, now: int, v: Variant): (r: Galaxy)
    ensures r.ui.isOpen == cur.isOpen && r.ui.posts == cur.posts
    ensures r.ui.gesture == cur.gesture && r.ui.swipe == cur.swipe
  {
    var g1 := VictoryEffect(prev, cur, exit, now, v);
    Galaxy(OpenEffect(prev, cur, SwipeEffect(prev, cur, g1.ui)), g1.exitDeadline)
  }

  /** How much re-rendering can still follow a render of `cur` after `prev`. */
  function Measure(prev: Option<Ui>, cur: Ui): nat {
    match prev
    case None => 16
    case Some(p) =>
      (if p.gesture != cur.gesture || p.swipe != cur.swipe || PhotoCount(p) != PhotoCount(cur)
          || p.isOpen != cur.isOpen then 8 else 0)
      + (if !cur.photoView then 3 else 0)
      + (if p.photoView != cur.photoView then 2 else 0)
      + (if p.selected != cur.selected then 1 else 0)
  }

  /** A render that changes state leaves less re-rendering to do, so the
      effects never loop. */
  lemma RoundDecreases(prev: Option<Ui>, cur: Ui, exit: Option<int>, now: int, v: Variant)
    ensures Round(prev, cur, exit, now, v).ui != cur ==>
      Measure(Some(cur), Round(prev, cur, exit, now, v).ui) < Measure(prev, cur)
  {
    var r := Round(prev, cur, exit, now, v).ui;
    assert PhotoCount(r) == PhotoCount(cur);
  }

  /** Renders until one changes no state. */
  function Settle(prev: Option<Ui>, cur: Ui, exit: Option<int>, now: int, v: Variant): (r: Galaxy)
    ensures r.ui.isOpen == cur.isOpen && r.ui.posts == cur.posts
    ensures r.ui.gesture == cur.gesture && r.ui.swipe == cur.swipe
    decreases Measure(prev, cur)
  {
    var next := Round(prev, cur, exit, now, v);
    if next.ui == cur then next
    else
      RoundDecreases(prev, cur, exit, now, v);
      Settle(Some(cur), next.ui, next.exitDeadline, now, v)
  }

  /** One unfolding of `Settle`. */
  lemma SettleStep(prev: Option<Ui>, cur: Ui, exit: Option<int>, now: int, v: Variant)
    ensures var r := Round(prev, cur, exit, now, v);
      Settle(prev, cur, exit, now, v) == if r.ui == cur then r else Settle(Some(cur), r.ui, r.exitDeadline, now, v)
  {
  }

  /** A render after nothing changed runs no effect. */
  lemma IdleRound(u: Ui, exit: Option<int>, now: int, v: Variant)
    ensures Round(Some(u), u, exit, now, v) == Galaxy(u, exit)
    ensures Settle(Some(u), u, exit, now, v) == Galaxy(u, exit)
  {
  }

  /** The effects alone never enter photo view while there are no photos. */
  lemma {:induction false} NoPhotosNoEntry(prev: Option<Ui>, cur: Ui, exit: Option<int>, now: int, v: Variant)
    requires PhotoCount(cur) == 0 && !cur.photoView
    ensures !Settle(prev, cur, exit, now, v).ui.photoView
    decreases Measure(prev, cur)
  {
    var next := Round(prev, cur, exit, now, v);
    if next.ui != cur {
      RoundDecreases(prev, cur, exit, now, v);
      NoPhotosNoEntry(Some(cur), next.ui, next.exitDeadline, now, v);
    }
  }

  /** The selected index is absent or within the photo list. */
  predicate IndexInRange(u: Ui) {
    u.selected == None || 0 <= u.selected.value < PhotoCount(u)
  }

  /** Each effect of a render keeps the selected index in range. */
  lemma RoundKeepsIndexInRange(prev: Option<Ui>, cur: Ui, exit: Option<int>, now: int, v: Variant)
    requires IndexInRange(cur)
    ensures IndexInRange(Round(prev, cur, exit, now, v).ui)
  {
    var u1 := VictoryEffect(prev, cur, exit, now, v).ui;
    assert u1.posts == cur.posts && IndexInRange(u1);
    var u2 := SwipeEffect(prev, cur, u1);
    if PhotoCount(cur) > 0 {
      WrapInRange(u1.selected, PhotoCount(cur));
    }
    assert u2.posts == cur.posts && IndexInRange(u2);
  }

  /** The effects keep the selected index in range. */
  lemma {:induction false} SettleKeepsIndexInRange(prev: Option<Ui>, cur: Ui, exit: Option<int>, now: int, v: Variant)
    requires IndexInRange(cur)
    ensures IndexInRange(Settle(prev, cur, exit, now, v).ui)
    decreases Measure(prev, cur)
  {
    var next := Round(prev, cur, exit, now, v);
    RoundKeepsIndexInRange(prev, cur, exit, now, v);
    if next.ui != cur {
      RoundDecreases(prev, cur, exit, now, v);
      SettleKeepsIndexInRange(Some(cur), next.ui, next.exitDeadline, now, v);
    }
  }

  /* ---------------- Events ---------------- */

  datatype Key = Escape | ArrowLeft | ArrowRight | OtherKey

  datatype Event =
    | GestureChanged(gesture: Option<string>)
    | SwipeChanged(swipe: Option<Swipe>)
    | PostsChanged(posts: seq<Post>)
    | OpenChanged(isOpen: bool)
    | KeyDown(key: Key)
    | PhotoClicked(photo: Post)
    | StartClicked
    | ViewerClosed
    | PrevClicked
    | NextClicked
    | TimerDue

  /** Re-render after an event changed the state to `next`. */
  function Commit(g: Galaxy, next: Ui, now: int, v: Variant): Galaxy {
    Settle(Some(g.ui), next, g.exitDeadline, now, v)
  }

  /** `handleKeyDown`: the new state, and whether it called `onClose`. */
  function KeyState(u: Ui, key: Key): (Ui, bool) {
    var n := PhotoCount(u);
    var u1 := if key == Escape && u.photoView then u.(photoView := false) else u;
    var close := key == Escape && !u.photoView && !u.welcome;
    var u2 :=
      if u.photoView && n > 0 && key == ArrowRight then u1.(selected := Some(Next(u1.selected, n)))
      else if u.photoView && n > 0 && key == ArrowLeft then u1.(selected := Some(Prev(u1.selected, n)))
      else u1;
    (u2, close)
  }

  /** The component after an event at time `now`, and whether it asked its
      parent to close. Handlers of elements that are not on screen, and the key
      listener while the mode is closed, do not run. */
  function Step(g: Galaxy, e: Event, now: int, v: Variant): (Galaxy, bool) {
    var u := g.ui;
    match e
    case GestureChanged(x) => (Commit(g, u.(gesture := x), now, v), false)
    case SwipeChanged(x) => (Commit(g, u.(swipe := x), now, v), false)
    case PostsChanged(x) => (Commit(g, u.(posts := x), now, v), false)
    case OpenChanged(x) => (Commit(g, u.(isOpen := x), now, v), false)
    case KeyDown(key) =>
      if !u.isOpen then (g, false)
      else
        var (u1, close) := KeyState(u, key);
        (Commit(g, u1, now, v), close)
    case PhotoClicked(photo) =>
      if u.isOpen && !u.welcome then
        (Commit(g, u.(selected := Some(FindIndex(Photos(u.posts), photo.id)), photoView := true), now, v), false)
      else (g, false)
    case StartClicked =>
      if u.isOpen && u.welcome then (Commit(g, u.(permission := true, welcome := false), now, v), false)
      else (g, false)
    case ViewerClosed =>
      if ViewerShown(u) then (Commit(g, u.(photoView := false), now, v), false) else (g, false)
    case PrevClicked =>
      if ViewerShown(u) then (Commit(g, u.(selected := Some(Prev(u.selected, PhotoCount(u)))), now, v), false)
      else (g, false)
    case NextClicked =>
      if ViewerShown(u) then (Commit(g, u.(selected := Some(Next(u.selected, PhotoCount(u)))), now, v), false)
      else (g, false)
    case TimerDue =>
      match g.exitDeadline
      case Some(d) =>
        if now >= d then (Settle(Some(u), u.(photoView := false), None, now, v), false) else (g, false)
      case None => (g, false)
  }

  /** The first render of the component. */
  function Mount(isOpen: bool, posts: seq<Post>, gesture: Option<string>, swipe: Option<Swipe>, now: int, v: Variant): Galaxy {
    Settle(None, Ui(isOpen, posts, gesture, swipe, None, false, true, false), None, now, v)
  }

  /* ---------------- Properties of the events ---------------- */

  /** Re-rendering keeps the selected index in range. */
  lemma CommitKeepsIndexInRange(g: Galaxy, next: Ui, now: int, v: Variant)
    requires IndexInRange(next)
    ensures IndexInRange(Commit(g, next, now, v).ui)
  {
    SettleKeepsIndexInRange(Some(g.ui), next, g.exitDeadline, now, v);
  }

  /** The new state an event hands to the re-render, when it re-renders. */
  lemma HandlerKeepsIndexInRange(u: Ui, e: Event)
    requires IndexInRange(u)
    requires e.PostsChanged? ==> |Photos(e.posts)| >= PhotoCount(u)
    requires e.PhotoClicked? ==> e.photo in Photos(u.posts)
    ensures e.KeyDown? ==> IndexInRange(KeyState(u, e.key).0)
    ensures e.PhotoClicked? ==> IndexInRange(u.(selected := Some(FindIndex(Photos(u.posts), e.photo.id)), photoView := true))
    ensures e.PrevClicked? && ViewerShown(u) ==> IndexInRange(u.(selected := Some(Prev(u.selected, PhotoCount(u)))))
    ensures e.NextClicked? && ViewerShown(u) ==> IndexInRange(u.(selected := Some(Next(u.selected, PhotoCount(u)))))
    ensures e.PostsChanged? ==> IndexInRange(u.(posts := e.posts))
  {
    match e
    case KeyDown(key) => KeyKeepsIndexInRange(u, key);
    case PhotoClicked(photo) => ClickKeepsIndexInRange(u, photo);
    case PrevClicked => if PhotoCount(u) > 0 { MovesKeepIndexInRange(u); }
    case NextClicked => if PhotoCount(u) > 0 { MovesKeepIndexInRange(u); }
    case _ =>
  }

  lemma KeyKeepsIndexInRange(u: Ui, key: Key)
    requires IndexInRange(u)
    ensures IndexInRange(KeyState(u, key).0)
  {
    if PhotoCount(u) > 0 {
      WrapInRange(u.selected, PhotoCount(u));
    }
  }

  lemma MovesKeepIndexInRange(u: Ui)
    requires IndexInRange(u) && PhotoCount(u) > 0
    ensures IndexInRange(u.(selected := Some(Prev(u.selected, PhotoCount(u)))))
    ensures IndexInRange(u.(selected := Some(Next(u.selected, PhotoCount(u)))))
  {
    WrapInRange(u.selected, PhotoCount(u));
  }

  /** A click on one of the photos selects its position. */
  lemma ClickKeepsIndexInRange(u: Ui, photo: Post)
    requires photo in Photos(u.posts)
    ensures IndexInRange(u.(selected := Some(FindIndex(Photos(u.posts), photo.id)), photoView := true))
  {
    var ps := Photos(u.posts);
    var k := FindIndex(ps, photo.id);
    assert k != -1 by {
      var i :| 0 <= i < |ps| && ps[i] == photo;
    }
  }

  /** Every event keeps the selected index in range, given that the photo list
      does not shrink and a clicked photo is one of the photos. */
  lemma IndexStaysInRange(g: Galaxy, e: Event, now: int, v: Variant)
    requires IndexInRange(g.ui)
    requires e.PostsChanged? ==> |Photos(e.posts)| >= PhotoCount(g.ui)
    requires e.PhotoClicked? ==> e.photo in Photos(g.ui.posts)
    ensures IndexInRange(Step(g, e, now, v).0.ui)
  {
    if e.GestureChanged? || e.SwipeChanged? || e.PostsChanged? || e.OpenChanged? {
      PropsKeepIndexInRange(g, e, now, v);
    } else if e.KeyDown? || e.PhotoClicked? || e.StartClicked? {
      InputKeepsIndexInRange(g, e, now, v);
    } else {
      ViewerKeepsIndexInRange(g, e, now, v);
    }
  }

  /** A prop change. */
  lemma PropsKeepIndexInRange(g: Galaxy, e: Event, now: int, v: Variant)
    requires IndexInRange(g.ui)
    requires e.GestureChanged? || e.SwipeChanged? || e.PostsChanged? || e.OpenChanged?
    requires e.PostsChanged? ==> |Photos(e.posts)| >= PhotoCount(g.ui)
    ensures IndexInRange(Step(g, e, now, v).0.ui)
  {
    var u := g.ui;
    match e
    case GestureChanged(x) => CommitKeepsIndexInRange(g, u.(gesture := x), now, v);
    case SwipeChanged(x) => CommitKeepsIndexInRange(g, u.(swipe := x), now, v);
    case PostsChanged(x) => CommitKeepsIndexInRange(g, u.(posts := x), now, v);
    case OpenChanged(x) => CommitKeepsIndexInRange(g, u.(isOpen := x), now, v);
  }

  /** A key, a photo click or the start button. */
  lemma InputKeepsIndexInRange(g: Galaxy, e: Event, now: int, v: Variant)
    requires IndexInRange(g.ui)
    requires e.KeyDown? || e.PhotoClicked? || e.StartClicked?
    requires e.PhotoClicked? ==> e.photo in Photos(g.ui.posts)
    ensures IndexInRange(Step(g, e, now, v).0.ui)
  {
    var u := g.ui;
    match e
    case KeyDown(key) =>
      if u.isOpen {
        KeyKeepsIndexInRange(u, key);
        CommitKeepsIndexInRange(g, KeyState(u, key).0, now, v);
      }
    case PhotoClicked(photo) =>
      if u.isOpen && !u.welcome {
        ClickKeepsIndexInRange(u, photo);
        CommitKeepsIndexInRange(g, u.(selected := Some(FindIndex(Photos(u.posts), photo.id)), photoView := true), now, v);
      }
    case StartClicked =>
      if u.isOpen && u.welcome {
        CommitKeepsIndexInRange(g, u.(permission := true, welcome := false), now, v);
      }
  }

  /** The viewer's buttons and the exit timer. */
  lemma ViewerKeepsIndexInRange(g: Galaxy, e: Event, now: int, v: Variant)
    requires IndexInRange(g.ui)
    requires e.ViewerClosed? || e.PrevClicked? || e.NextClicked? || e.TimerDue?
    ensures IndexInRange(Step(g, e, now, v).0.ui)
  {
    var u := g.ui;
    var n := PhotoCount(u);
    match e
    case ViewerClosed =>
      if ViewerShown(u) {
        CommitKeepsIndexInRange(g, u.(photoView := false), now, v);
      }
    case PrevClicked =>
      if ViewerShown(u) {
        MovesKeepIndexInRange(u);
        CommitKeepsIndexInRange(g, u.(selected := Some(Prev(u.selected, n))), now, v);
      }
    case NextClicked =>
      if ViewerShown(u) {
        MovesKeepIndexInRange(u);
        CommitKeepsIndexInRange(g, u.(selected := Some(Next(u.selected, n))), now, v);
      }
    case TimerDue =>
      SettleKeepsIndexInRange(Some(u), u.(photoView := false), None, now, v);
  }

  /** With no photos, no gesture, swipe or timer ever turns photo view on. */
  lemma NoPhotosNoPhotoView(g: Galaxy, x: Option<string>, now: int, v: Variant)
    requires PhotoCount(g.ui) == 0 && !g.ui.photoView
    ensures !Step(g, GestureChanged(x), now, v).0.ui.photoView
  {
    NoPhotosNoEntry(Some(g.ui), g.ui.(gesture := x), g.exitDeadline, now, v);
  }

  /** Showing Victory, with photos and no swipe pulse, enters photo view;
      the index becomes 0 only when none was selected. */
  lemma VictoryEntersPhotoView(g: Galaxy, now: int, v: Variant)
    requires g.ui.isOpen && !g.ui.photoView && PhotoCount(g.ui) > 0 && g.ui.swipe == None
    requires !IsVictory(g.ui.gesture)
    ensures var r := Step(g, GestureChanged(Some(VictoryName)), now, v).0;
      r.ui.photoView && r.exitDeadline == None
      && r.ui.selected == (if g.ui.selected == None then Some(0) else g.ui.selected)
  {
    var u0 := g.ui.(gesture := Some(VictoryName));
    var u1 := u0.(photoView := true, selected := if g.ui.selected == None then Some(0) else g.ui.selected);
    assert Round(Some(g.ui), u0, g.exitDeadline, now, v) == Galaxy(u1, None);
    SettleStep(Some(g.ui), u0, g.exitDeadline, now, v);
    assert Round(Some(u0), u1, None, now, v) == Galaxy(u1, None);
    SettleStep(Some(u0), u1, None, now, v);
  }

  /** Dropping Victory while in photo view arms the exit for 500 ms later and
      changes nothing yet. */
  lemma LeavingVictoryArmsExit(g: Galaxy, x: Option<string>, now: int, v: Variant)
    requires g.ui.photoView && IsVictory(g.ui.gesture) && !IsVictory(x)
    ensures Step(g, GestureChanged(x), now, v).0 == Galaxy(g.ui.(gesture := x), Some(now + ExitDelayMs))
  {
    var u0 := g.ui.(gesture := x);
    assert Round(Some(g.ui), u0, g.exitDeadline, now, v) == Galaxy(u0, Some(now + ExitDelayMs));
    SettleStep(Some(g.ui), u0, g.exitDeadline, now, v);
  }

  /** The exit timer does nothing before its deadline and leaves photo view once
      it is due, without re-entering it while the gesture is not Victory. */
  lemma ExitTimer(g: Galaxy, now: int, v: Variant)
    requires g.exitDeadline.Some? && !IsVictory(g.ui.gesture) && g.ui.photoView
    ensures now < g.exitDeadline.value ==> Step(g, TimerDue, now, v).0 == g
    ensures now >= g.exitDeadline.value ==>
      Step(g, TimerDue, now, v).0 == Galaxy(g.ui.(photoView := false), None)
  {
    var u1 := g.ui.(photoView := false);
    assert Round(Some(g.ui), u1, None, now, v) == Galaxy(u1, None);
    SettleStep(Some(g.ui), u1, None, now, v);
  }

  /** Returning to Victory 400 ms after leaving it cancels the exit: at the
      original deadline the timer no longer fires and photo view stays on. */
  lemma ReturningToVictoryCancelsExit(g: Galaxy, x: Option<string>, t: int, v: Variant)
    requires g.ui.photoView && IsVictory(g.ui.gesture) && !IsVictory(x)
    ensures var a := Step(g, GestureChanged(x), t, v).0;
      var b := Step(a, GestureChanged(Some(VictoryName)), t + 400, v).0;
      var c := Step(b, TimerDue, t + ExitDelayMs, v).0;
      a.exitDeadline == Some(t + ExitDelayMs) && b.exitDeadline == None
      && c == b && c.ui.photoView && c.ui == g.ui
  {
    LeavingVictoryArmsExit(g, x, t, v);
    var a := Step(g, GestureChanged(x), t, v).0;
    var u1 := a.ui.(gesture := Some(VictoryName));
    assert u1 == g.ui;
    assert Round(Some(a.ui), u1, a.exitDeadline, t + 400, v) == Galaxy(u1, None);
    SettleStep(Some(a.ui), u1, a.exitDeadline, t + 400, v);
  }

  /** A change of the selected index while photo view is on and Victory is not
      shown cancels the pending exit and re-arms it from the time of the change. */
  lemma ArrowKeyRearmsExit(g: Galaxy, now: int, v: Variant)
    requires g.ui.isOpen && g.ui.photoView && !IsVictory(g.ui.gesture) && PhotoCount(g.ui) > 1
    requires g.ui.selected.Some? && 0 <= g.ui.selected.value < PhotoCount(g.ui)
    ensures var r := Step(g, KeyDown(ArrowRight), now, v).0;
      r.exitDeadline == Some(now + ExitDelayMs) && r.ui.photoView
      && r.ui.selected == Some(Next(g.ui.selected, PhotoCount(g.ui)))
  {
    var n := PhotoCount(g.ui);
    var k := g.ui.selected.value;
    RemSmall(k + 1, n);
    var u1 := g.ui.(selected := Some(Next(g.ui.selected, n)));
    assert KeyState(g.ui, ArrowRight).0 == u1;
    assert u1.selected != g.ui.selected;
    assert Round(Some(g.ui), u1, g.exitDeadline, now, v) == Galaxy(u1, Some(now + ExitDelayMs));
    SettleStep(Some(g.ui), u1, g.exitDeadline, now, v);
  }

  /** A swipe pulse in photo view moves the index one step, wrapping; outside
      photo view or with no photos it changes nothing. */
  lemma SwipeNavigates(g: Galaxy, d: Swipe, now: int, v: Variant)
    requires g.ui.swipe == None
    ensures var r := Step(g, SwipeChanged(Some(d)), now, v).0;
      var n := PhotoCount(g.ui);
      (g.ui.photoView && n > 0 ==>
        r.ui.photoView
        && r.ui.selected == Some(if d == SwipeRight then Next(g.ui.selected, n) else Prev(g.ui.selected, n)))
      && (!g.ui.photoView || n == 0 ==> r == Galaxy(g.ui.(swipe := Some(d)), g.exitDeadline))
  {
    var u0 := g.ui.(swipe := Some(d));
    SettleStep(Some(g.ui), u0, g.exitDeadline, now, v);
    var r1 := Round(Some(g.ui), u0, g.exitDeadline, now, v);
    if r1.ui != u0 {
      SettleStep(Some(u0), r1.ui, r1.exitDeadline, now, v);
      assert Round(Some(u0), r1.ui, r1.exitDeadline, now, v).ui == r1.ui;
    }
  }

  /** Escape leaves photo view when it is on and does nothing else, while
      Victory is not shown; a held Victory re-enters photo view at once.
      Outside photo view it asks to close exactly when the welcome screen is gone. */
  lemma EscapeKey(g: Galaxy, now: int, v: Variant)
    requires g.ui.isOpen
    ensures var (r, close) := Step(g, KeyDown(Escape), now, v);
      (g.ui.photoView && !IsVictory(g.ui.gesture) ==>
        !close && r == Galaxy(g.ui.(photoView := false), None))
      && (g.ui.photoView && IsVictory(g.ui.gesture) && PhotoCount(g.ui) > 0 && g.ui.swipe == None
          && g.ui.selected != None ==>
        !close && r == Galaxy(g.ui, None))
      && (!g.ui.photoView ==> close == !g.ui.welcome && r == g)
  {
    var u1 := KeyState(g.ui, Escape).0;
    SettleStep(Some(g.ui), u1, g.exitDeadline, now, v);
    if g.ui.photoView {
      assert u1 == g.ui.(photoView := false);
      if !IsVictory(g.ui.gesture) {
        assert Round(Some(g.ui), u1, g.exitDeadline, now, v) == Galaxy(u1, None);
      } else if PhotoCount(g.ui) > 0 && g.ui.swipe == None && g.ui.selected != None {
        assert Round(Some(g.ui), u1, g.exitDeadline, now, v) == Galaxy(g.ui, None);
        assert Round(Some(u1), g.ui, None, now, v) == Galaxy(g.ui, None);
        SettleStep(Some(u1), g.ui, None, now, v);
      }
    } else {
      assert u1 == g.ui;
    }
  }

  /** The arrow keys apply the same wrap-around as the swipes, under the same
      guard, and never ask to close. */
  lemma ArrowKeys(u: Ui, key: Key)
    requires key == ArrowLeft || key == ArrowRight
    ensures var (u1, close) := KeyState(u, key);
      var n := PhotoCount(u);
      !close
      && (u.photoView && n > 0 ==>
            u1 == u.(selected := Some(if key == ArrowRight then Next(u.selected, n) else Prev(u.selected, n))))
      && (!u.photoView || n == 0 ==> u1 == u)
  {
  }

  /** Closing resets the selection, photo view, welcome screen and camera
      permission, so tracking stops; a pending exit is cancelled. */
  lemma CloseResets(g: Galaxy, now: int)
    requires g.ui.isOpen
    ensures var r := Step(g, OpenChanged(false), now, Corrected).0;
      r.ui.selected == None && !r.ui.photoView && r.ui.welcome && !r.ui.permission
      && !TrackingEnabled(r.ui) && (g.ui.photoView ==> r.exitDeadline == None)
  {
    var u0 := g.ui.(isOpen := false);
    var reset := u0.(selected := None, photoView := false, welcome := true, permission := false);
    var r1 := Round(Some(g.ui), u0, g.exitDeadline, now, Corrected);
    assert r1 == Galaxy(reset, g.exitDeadline);
    SettleStep(Some(g.ui), u0, g.exitDeadline, now, Corrected);
    if reset != u0 {
      var r2 := Round(Some(u0), reset, g.exitDeadline, now, Corrected);
      assert r2.ui == reset;
      assert g.ui.photoView ==> r2.exitDeadline == None;
      SettleStep(Some(u0), reset, g.exitDeadline, now, Corrected);
    }
  }

  /** As written, closing the mode while Victory is shown undoes the reset:
      the Victory effect runs again on the reset state and turns photo view
      back on at the first photo. */
  lemma CloseWhileVictoryReentersPhotoView(g: Galaxy, now: int)
    requires g.ui.isOpen && g.ui.photoView && IsVictory(g.ui.gesture)
    requires PhotoCount(g.ui) > 0 && g.ui.swipe == None
    ensures var r := Step(g, OpenChanged(false), now, AsWritten).0;
      r.ui.photoView && r.ui.selected == Some(0) && !r.ui.isOpen
  {
    var u0 := g.ui.(isOpen := false);
    var reset := u0.(selected := None, photoView := false, welcome := true, permission := false);
    assert Round(Some(g.ui), u0, g.exitDeadline, now, AsWritten) == Galaxy(reset, g.exitDeadline);
    SettleStep(Some(g.ui), u0, g.exitDeadline, now, AsWritten);
    var back := reset.(photoView := true, selected := Some(0));
    assert Round(Some(u0), reset, g.exitDeadline, now, AsWritten) == Galaxy(back, None);
    SettleStep(Some(u0), reset, g.exitDeadline, now, AsWritten);
    assert Round(Some(reset), back, None, now, AsWritten) == Galaxy(back, None);
    SettleStep(Some(reset), back, None, now, AsWritten);
  }

  /** Start hides the welcome screen and grants the camera, which turns
      tracking on; nothing else changes. */
  lemma StartEnablesTracking(g: Galaxy, now: int, v: Variant)
    requires g.ui.isOpen && g.ui.welcome
    ensures var r := Step(g, StartClicked, now, v).0;
      r.ui == g.ui.(permission := true, welcome := false) && TrackingEnabled(r.ui)
      && r.exitDeadline == g.exitDeadline
  {
    var u1 := g.ui.(permission := true, welcome := false);
    assert Round(Some(g.ui), u1, g.exitDeadline, now, v) == Galaxy(u1, g.exitDeadline);
    SettleStep(Some(g.ui), u1, g.exitDeadline, now, v);
  }

  /** Clicking a photo selects its position and turns photo view on whatever
      the gesture; without Victory the exit timer is armed at once, so the
      viewer closes 500 ms later unless something re-arms it. */
  lemma PhotoClickSelects(g: Galaxy, photo: Post, now: int, v: Variant)
    requires g.ui.isOpen && !g.ui.welcome && !g.ui.photoView && g.ui.swipe == None
    ensures var r := Step(g, PhotoClicked(photo), now, v).0;
      r.ui.selected == Some(FindIndex(Photos(g.ui.posts), photo.id)) && r.ui.photoView
      && r.exitDeadline == (if IsVictory(g.ui.gesture) then None else Some(now + ExitDelayMs))
  {
    var u1 := g.ui.(selected := Some(FindIndex(Photos(g.ui.posts), photo.id)), photoView := true);
    var e := if IsVictory(g.ui.gesture) then None else Some(now + ExitDelayMs);
    assert Round(Some(g.ui), u1, g.exitDeadline, now, v) == Galaxy(u1, e);
    SettleStep(Some(g.ui), u1, g.exitDeadline, now, v);
  }

  /** The viewer's buttons: close leaves photo view and cancels the exit (while
      Victory is not shown); prev and next move one step with wrap-around. */
  lemma ViewerButtons(g: Galaxy, now: int, v: Variant)
    requires ViewerShown(g.ui)
    ensures var n := PhotoCount(g.ui);
      && Step(g, PrevClicked, now, v).0.ui == g.ui.(selected := Some(Prev(g.ui.selected, n)))
      && Step(g, NextClicked, now, v).0.ui == g.ui.(selected := Some(Next(g.ui.selected, n)))
      && (!IsVictory(g.ui.gesture) ==> Step(g, ViewerClosed, now, v).0 == Galaxy(g.ui.(photoView := false), None))
  {
    var n := PhotoCount(g.ui);
    var up := g.ui.(selected := Some(Prev(g.ui.selected, n)));
    var un := g.ui.(selected := Some(Next(g.ui.selected, n)));
    assert Round(Some(g.ui), up, g.exitDeadline, now, v).ui == up;
    SettleStep(Some(g.ui), up, g.exitDeadline, now, v);
    assert Round(Some(g.ui), un, g.exitDeadline, now, v).ui == un;
    SettleStep(Some(g.ui), un, g.exitDeadline, now, v);
    var uc := g.ui.(photoView := false);
    if !IsVictory(g.ui.gesture) {
      assert Round(Some(g.ui), uc, g.exitDeadline, now, v) == Galaxy(uc, None);
      SettleStep(Some(g.ui), uc, g.exitDeadline, now, v);
    }
  }

  /* ---------------- The component as an object ---------------- */

  /** The component; `variant` picks the Victory effect of the source
      (`AsWritten`) or the one that enters photo view only while open
      (`Corrected`). */
  class GalaxyScreen {
    const variant: Variant
    var isOpen: bool
    var posts: seq<Post>
    var gesture: Option<string>
    var swipeDirection: Option<Swipe>
    var selectedPhotoIndex: Option<int>
    var isPhotoViewMode: bool
    var showWelcome: bool
    var cameraPermissionGranted: bool
    var exitDeadline: Option<int>

    function Current(): Ui
      reads this
    {
      Ui(isOpen, posts, gesture, swipeDirection, selectedPhotoIndex, isPhotoViewMode, showWelcome, cameraPermissionGranted)
    }

    function State(): Galaxy
      reads this
    {
      Galaxy(Current(), exitDeadline)
    }

    /** The first render. */
    constructor (open: bool, ps: seq<Post>, g: Option<string>, s: Option<Swipe>, now: int, v: Variant)
      ensures variant == v
      ensures State() == Mount(open, ps, g, s, now, v)
    {
      variant := v;
      isOpen := open;
      posts := ps;
      gesture := g;
      swipeDirection := s;
      selectedPhotoIndex := None;
      isPhotoViewMode := false;
      showWelcome := true;
      cameraPermissionGranted := false;
      exitDeadline := None;
      new;
      Rerender(None, now);
    }

    /** The effects of one render, in declaration order. */
    method RunEffects(prev: Option<Ui>, now: int)
      modifies this
      ensures State() == Round(prev, old(Current()), old(exitDeadline), now, variant)
    {
      var cur := Current();
      RunVictoryEffect(prev, cur, now);
      RunSwipeEffect(prev, cur);
      RunOpenEffect(prev, cur);
    }

    method RunVictoryEffect(prev: Option<Ui>, cur: Ui, now: int)
      requires cur == Current()
      modifies this
      ensures State() == VictoryEffect(prev, cur, old(exitDeadline), now, variant)
    {
      if VictoryDepsChanged(prev, cur) {
        exitDeadline := None;
        if cur.gesture == Some(VictoryName) && (variant == Corrected ==> cur.isOpen) && !cur.photoView && |Photos(posts)| > 0 {
          isPhotoViewMode := true;
          if cur.selected == None {
            selectedPhotoIndex := Some(0);
          }
        } else if cur.gesture != Some(VictoryName) && cur.photoView {
          exitDeadline := Some(now + ExitDelayMs);
        }
      }
    }

    method RunSwipeEffect(prev: Option<Ui>, cur: Ui)
      modifies this
      ensures Current() == SwipeEffect(prev, cur, old(Current())) && exitDeadline == old(exitDeadline)
    {
      var n := |Photos(cur.posts)|;
      if SwipeDepsChanged(prev, cur) && cur.swipe != None && cur.photoView && n > 0 {
        if cur.swipe == Some(SwipeRight) {
          selectedPhotoIndex := Some(Next(selectedPhotoIndex, n));
        } else {
          selectedPhotoIndex := Some(Prev(selectedPhotoIndex, n));
        }
      }
    }

    method RunOpenEffect(prev: Option<Ui>, cur: Ui)
      modifies this
      ensures Current() == OpenEffect(prev, cur, old(Current())) && exitDeadline == old(exitDeadline)
    {
      if OpenDepsChanged(prev, cur) && !cur.isOpen {
        selectedPhotoIndex := None;
        isPhotoViewMode := false;
        showWelcome := true;
        cameraPermissionGranted := false;
      }
    }

    /** Renders until a render changes no state. */
    method Rerender(prev: Option<Ui>, now: int)
      modifies this
      ensures State() == Settle(prev, old(Current()), old(exitDeadline), now, variant)
    {
      var p := prev;
      while true
        invariant Settle(p, Current(), exitDeadline, now, variant)
          == Settle(prev, old(Current()), old(exitDeadline), now, variant)
        decreases Measure(p, Current())
      {
        var cur := Current();
        var exit := exitDeadline;
        RunEffects(p, now);
        if Current() == cur {
          return;
        }
        RoundDecreases(p, cur, exit, now, variant);
        p := Some(cur);
      }
    }

    method SetGesture(x: Option<string>, now: int)
      modifies this
      ensures State() == Step(old(State()), GestureChanged(x), now, variant).0
    {
      var prev := Current();
      gesture := x;
      Rerender(Some(prev), now);
    }

    method SetSwipeDirection(x: Option<Swipe>, now: int)
      modifies this
      ensures State() == Step(old(State()), SwipeChanged(x), now, variant).0
    {
      var prev := Current();
      swipeDirection := x;
      Rerender(Some(prev), now);
    }

    method SetPosts(x: seq<Post>, now: int)
      modifies this
      ensures State() == Step(old(State()), PostsChanged(x), now, variant).0
    {
      var prev := Current();
      posts := x;
      Rerender(Some(prev), now);
    }

    method SetOpen(x: bool, now: int)
      modifies this
      ensures State() == Step(old(State()), OpenChanged(x), now, variant).0
    {
      var prev := Current();
      isOpen := x;
      Rerender(Some(prev), now);
    }

    /** `handleKeyDown`; `closeRequested` says whether it called `onClose`. */
    method HandleKeyDown(key: Key, now: int) returns (closeRequested: bool)
      modifies this
      ensures State() == Step(old(State()), KeyDown(key), now, variant).0
      ensures closeRequested == Step(old(State()), KeyDown(key), now, variant).1
    {
      closeRequested := false;
      if !isOpen {
        return;
      }
      var prev := Current();
      var n := |Photos(posts)|;
      if key == Escape {
        if prev.photoView {
          isPhotoViewMode := false;
        } else if !prev.welcome {
          closeRequested := true;
        }
      }
      if prev.photoView && n > 0 {
        if key == ArrowRight {
          selectedPhotoIndex := Some(Next(selectedPhotoIndex, n));
        } else if key == ArrowLeft {
          selectedPhotoIndex := Some(Prev(selectedPhotoIndex, n));
        }
      }
      assert Current() == KeyState(prev, key).0;
      Rerender(Some(prev), now);
    }

    /** `onPhotoSelect` from the scene. */
    method SelectPhoto(photo: Post, now: int)
      modifies this
      ensures State() == Step(old(State()), PhotoClicked(photo), now, variant).0
    {
      if !(isOpen && !showWelcome) {
        return;
      }
      var prev := Current();
      var index := FindIndex(Photos(posts), photo.id);
      selectedPhotoIndex := Some(index);
      isPhotoViewMode := true;
      Rerender(Some(prev), now);
    }

    /** `handleStartExperience`. */
    method StartExperience(now: int)
      modifies this
      ensures State() == Step(old(State()), StartClicked, now, variant).0
    {
      if !(isOpen && showWelcome) {
        return;
      }
      var prev := Current();
      cameraPermissionGranted := true;
      showWelcome := false;
      Rerender(Some(prev), now);
    }

    /** The viewer's close button. */
    method CloseViewer(now: int)
      modifies this
      ensures State() == Step(old(State()), ViewerClosed, now, variant).0
    {
      if !ViewerShown(Current()) {
        return;
      }
      var prev := Current();
      isPhotoViewMode := false;
      Rerender(Some(prev), now);
    }

    /** The viewer's previous button: `(prev - 1 + photos.length) % photos.length`. */
    method PreviousPhoto(now: int)
      modifies this
      ensures State() == Step(old(State()), PrevClicked, now, variant).0
    {
      if !ViewerShown(Current()) {
        return;
      }
      var prev := Current();
      var n := |Photos(posts)|;
      selectedPhotoIndex := Some(Rem(selectedPhotoIndex.value - 1 + n, n));
      Rerender(Some(prev), now);
    }

    /** The viewer's next button: `(prev + 1) % photos.length`. */
    method NextPhoto(now: int)
      modifies this
      ensures State() == Step(old(State()), NextClicked, now, variant).0
    {
      if !ViewerShown(Current()) {
        return;
      }
      var prev := Current();
      var n := |Photos(posts)|;
      selectedPhotoIndex := Some(Rem(selectedPhotoIndex.value + 1, n));
      Rerender(Some(prev), now);
    }

    /** The exit timer's callback, when it is due. */
    method Tick(now: int)
      modifies this
      ensures State() == Step(old(State()), TimerDue, now, variant).0
    {
      if exitDeadline.None? || now < exitDeadline.value {
        return;
      }
      var prev := Current();
      exitDeadline := None;
      isPhotoViewMode := false;
      Rerender(Some(prev), now);
    }
  }

}
