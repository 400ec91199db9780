/**
 * The stateful part of the hand-tracking hook
 * (src/cmps/GalaxyMode/useHandTracking.js): the swipe detector over a short
 * history of horizontal positions, and the per-frame step that turns one
 * recognition result into the hook's gesture, position, hand-in-frame and
 * edge-warning state.
 *
 * `Date.now()` is the `now` parameter (milliseconds). The two `setTimeout`
 * callbacks of the hook (the 300 ms swipe cooldown and the 100 ms swipe pulse)
 * are deadlines that `Tick(now)` fires.
 */
module HandTracking {
  import opened Wrappers
  import opened HandFeatures

  datatype Swipe = SwipeLeft | SwipeRight

  /** One entry of the position history. */
  datatype Sample = Sample(x: real, time: int)

  datatype Position = Position(x: real, y: real)

  /** One gesture classification of the recogniser. */
  datatype Category = Category(categoryName: string, score: real)

  /** What `recognizeForVideo` gives for one video frame: it throws, or it
      returns the landmarks of each detected hand and, per hand, the gesture
      categories sorted by score. */
  datatype Recognition =
    | RecognitionFailed
    | Recognized(landmarks: seq<seq<Landmark>>, gestures: seq<seq<Category>>)

  /** Largest number of samples the history keeps. */
  const HistoryLimit: nat := 10
  /** Fewest samples a swipe is judged on. */
  const MinSamples: nat := 3
  /** Displacement that is a swipe at any speed. */
  const SwipeThreshold: real := 0.08
  /** Smaller displacement that is a swipe when it is fast. */
  const FastSwipeThreshold: real := 0.05
  /** Speed, in units per second, that makes a movement fast. */
  const VelocityThreshold: real := 0.3
  const CooldownMs: int := 300
  const PulseMs: int := 100
  /** Frames without a hand that are tolerated before the hand counts as gone. */
  const GraceFrames: nat := 10
  const ScoreThreshold: real := 0.5
  const VictoryName: string := "Victory"

  /** `Math.abs(dx) / (dt / 1000) > 0.3` as IEEE arithmetic decides it: for
      dt > 0 it is the cross-multiplied comparison; for dt == 0 the quotient is
      Infinity (true) unless dx == 0 (NaN, false); for dt < 0 it is negative
      (false). */
  predicate Fast(dx: real, dt: int) {
    dt >= 0 && Abs(dx) * 1000.0 > VelocityThreshold * (dt as real)
  }

  /** The dual trigger: a large displacement, or a smaller one made quickly. */
  predicate Triggers(dx: real, dt: int) {
    Abs(dx) > SwipeThreshold || (Fast(dx, dt) && Abs(dx) > FastSwipeThreshold)
  }

  /** `push` the sample, then `shift` the oldest one if the history is over its limit. */
  function Window(h: seq<Sample>, s: Sample): (w: seq<Sample>)
    ensures |w| > 0 && w[|w| - 1] == s
    ensures |w| <= |h| + 1 && w == (h + [s])[|h| + 1 - |w|..]
    ensures |h| < HistoryLimit ==> w == h + [s]
    ensures |h| <= HistoryLimit ==> |w| <= HistoryLimit
  {
    var h1 := h + [s];
    if |h1| > HistoryLimit then h1[1..] else h1
  }

  /** Horizontal displacement from the oldest to the newest sample. */
  function Displacement(w: seq<Sample>): real
    requires |w| > 0
  {
    w[|w| - 1].x - w[0].x
  }

  function Elapsed(w: seq<Sample>): int
    requires |w| > 0
  {
    w[|w| - 1].time - w[0].time
  }

  datatype SwipeOutcome = SwipeOutcome(history: seq<Sample>, fired: Option<Swipe>)

  /** `detectSwipe(currentX, isVictory)` as a function of the history and the
      cooldown flag; on a swipe the caller also starts the cooldown. */
  function SwipeStep(h: seq<Sample>, cooldown: bool, x: real, victory: bool, now: int): (r: SwipeOutcome)
    ensures !victory ==> r == SwipeOutcome([], None)
    ensures victory && cooldown ==> r == SwipeOutcome(h, None)
    ensures |h| <= HistoryLimit ==> |r.history| <= HistoryLimit
    ensures |h| + 1 < MinSamples ==> r.fired == None
    ensures r.fired != None ==> r.history == []
    ensures r.fired == None && victory && !cooldown ==> r.history == Window(h, Sample(x, now))
  {
    if !victory then SwipeOutcome([], None)
    else if cooldown then SwipeOutcome(h, None)
    else
      var w := Window(h, Sample(x, now));
      if |w| < MinSamples then SwipeOutcome(w, None)
      else
        var dx := Displacement(w);
        if Triggers(dx, Elapsed(w)) then
          SwipeOutcome([], Some(if dx > 0.0 then SwipeRight else SwipeLeft))
        else SwipeOutcome(w, None)
  }

  /** A swipe is never fired for a displacement of at most 0.05, always for
      one above 0.08 (given three samples), and points the way the hand moved. */
  lemma SwipeStepDisplacement(h: seq<Sample>, cooldown: bool, x: real, victory: bool, now: int)
    ensures var w := Window(h, Sample(x, now));
      SwipeStep(h, cooldown, x, victory, now).fired != None ==>
        victory && !cooldown && |w| >= MinSamples && Abs(Displacement(w)) > FastSwipeThreshold
        && (SwipeStep(h, cooldown, x, victory, now).fired == Some(SwipeRight) <==> Displacement(w) > 0.0)
    ensures var w := Window(h, Sample(x, now));
      victory && !cooldown && |w| >= MinSamples && Abs(Displacement(w)) > SwipeThreshold ==>
        SwipeStep(h, cooldown, x, victory, now).fired != None
  {
  }

  /* ---------------- Runs of the swipe detector ---------------- */

  /** The detector's state after feeding Victory samples one by one, with no
      timer firing in between, and the swipes it fired in order. */
  datatype SwipeRun = SwipeRun(history: seq<Sample>, cooldown: bool, swipes: seq<Swipe>)

  /** One more Victory sample fed to the detector. */
  function Advance(r: SwipeRun, s: Sample): SwipeRun {
    var o := SwipeStep(r.history, r.cooldown, s.x, true, s.time);
    match o.fired
    case Some(d) => SwipeRun(o.history, true, r.swipes + [d])
    case None => SwipeRun(o.history, r.cooldown, r.swipes)
  }

  function Feed(h: seq<Sample>, cooldown: bool, xs: seq<Sample>): SwipeRun
    decreases |xs|
  {
    if xs == [] then SwipeRun(h, cooldown, [])
    else Advance(Feed(h, cooldown, xs[..|xs| - 1]), xs[|xs| - 1])
  }

  /** While the cooldown is on, samples change nothing. */
  lemma CooldownIgnoresSamples(r: SwipeRun, s: Sample)
    requires r.cooldown
    ensures Advance(r, s) == r
  {
  }

  predicate IncreasingX(xs: seq<Sample>) {
    forall i, j :: 0 <= i < j < |xs| ==> xs[i].x < xs[j].x
  }

  /** While nothing has fired, the history is exactly the samples fed so far;
      after the first swipe, which is to the right, the cooldown vetoes the rest. */
  lemma {:induction false} FeedIncreasing(xs: seq<Sample>)
    requires |xs| <= HistoryLimit && IncreasingX(xs)
    ensures var r := Feed([], false, xs);
      (r.swipes == [] && !r.cooldown && r.history == xs) || (r.swipes == [SwipeRight] && r.cooldown)
    ensures var r := Feed([], false, xs);
      |xs| >= MinSamples && Displacement(xs) > SwipeThreshold ==> r.swipes == [SwipeRight]
  {
    if xs != [] {
      var init := xs[..|xs| - 1];
      IncreasingInit(xs);
      FeedIncreasing(init);
      var r := Feed([], false, init);
      var last := xs[|xs| - 1];
      assert Feed([], false, xs) == Advance(r, last);
      if r.swipes == [] && !r.cooldown && r.history == init {
        if |xs| >= MinSamples {
          assert xs[0].x < xs[|xs| - 1].x;
        }
        FeedFromFresh(xs);
      } else {
        CooldownIgnoresSamples(r, last);
      }
    }
  }

  lemma IncreasingInit(xs: seq<Sample>)
    requires xs != [] && IncreasingX(xs)
    ensures IncreasingX(xs[..|xs| - 1])
  {
    var init := xs[..|xs| - 1];
    forall i, j | 0 <= i < j < |init| ensures init[i].x < init[j].x {
      assert init[i] == xs[i] && init[j] == xs[j];
    }
  }

  /** One more sample on the history of the samples so far, the first of
      which lies left of the new one. */
  lemma FeedFromFresh(xs: seq<Sample>)
    requires 0 < |xs| <= HistoryLimit
    requires |xs| >= MinSamples ==> xs[0].x < xs[|xs| - 1].x
    ensures var r := Advance(SwipeRun(xs[..|xs| - 1], false, []), xs[|xs| - 1]);
      (r.swipes == [] && !r.cooldown && r.history == xs) || (r.swipes == [SwipeRight] && r.cooldown)
    ensures var r := Advance(SwipeRun(xs[..|xs| - 1], false, []), xs[|xs| - 1]);
      |xs| >= MinSamples && Displacement(xs) > SwipeThreshold ==> r.swipes == [SwipeRight]
  {
    var init, last := xs[..|xs| - 1], xs[|xs| - 1];
    FreshWindow(xs);
    var o := SwipeStep(init, false, last.x, true, last.time);
    SwipeStepDisplacement(init, false, last.x, true, last.time);
    assert o.fired == None || o.fired == Some(SwipeRight);
    assert Advance(SwipeRun(init, false, []), last)
      == if o.fired == None then SwipeRun(o.history, false, []) else SwipeRun(o.history, true, [SwipeRight]);
  }

  lemma FreshWindow(xs: seq<Sample>)
    requires 0 < |xs| <= HistoryLimit
    ensures Window(xs[..|xs| - 1], Sample(xs[|xs| - 1].x, xs[|xs| - 1].time)) == xs
  {
    assert xs[..|xs| - 1] + [xs[|xs| - 1]] == xs;
  }

  /** Three to ten Victory samples whose x increases by more than 0.08
      overall yield exactly one swipe, to the right, and leave the cooldown on. */
  lemma IncreasingMotionSwipesRightOnce(xs: seq<Sample>)
    requires MinSamples <= |xs| <= HistoryLimit && IncreasingX(xs)
    requires Displacement(xs) > SwipeThreshold
    ensures Feed([], false, xs).swipes == [SwipeRight] && Feed([], false, xs).cooldown
  {
    FeedIncreasing(xs);
  }

  /** After a non-Victory frame the history is empty, so the next two Victory
      frames cannot fire, whatever came before. */
  lemma {:induction false} FreshHoldNeedsThreeSamples(h: seq<Sample>, cooldown: bool, x0: real, t0: int, s1: Sample, s2: Sample)
    ensures var c := SwipeStep(h, cooldown, x0, false, t0);
      var a := SwipeStep(c.history, cooldown, s1.x, true, s1.time);
      var b := SwipeStep(a.history, cooldown, s2.x, true, s2.time);
      a.fired == None && b.fired == None
  {
    var c := SwipeStep(h, cooldown, x0, false, t0);
    assert c.history == [];
    var a := SwipeStep(c.history, cooldown, s1.x, true, s1.time);
    assert |a.history| <= 1;
  }

  /* ---------------- The per-frame step ---------------- */

  /** The hook's state: its React state variables and the refs the frame loop uses. */
  datatype TrackerState = TrackerState(
    gesture: Option<string>,
    handPosition: Position,
    fingerCount: nat,
    swipeDirection: Option<Swipe>,
    isHandInFrame: bool,
    handEdgeWarning: Option<Edge>,
    noHandFrameCount: nat,
    positionHistory: seq<Sample>,
    swipeCooldown: bool,
    cooldownDeadline: int,
    pulseDeadline: int)

  const InitialState: TrackerState :=
    TrackerState(None, Position(0.5, 0.5), 0, None, false, None, 0, [], false, 0, 0)

  /** The history stays within its bound. */
  predicate Valid(s: TrackerState) {
    |s.positionHistory| <= HistoryLimit
  }

  datatype FrameOutcome = FrameOutcome(state: TrackerState, swipe: Option<Swipe>)

  /** A frame with no hand: count it; after the grace period the hand is out of
      frame and the edge warning goes; the gesture is cleared every time. */
  function NoHandStep(s: TrackerState): TrackerState {
    var c := s.noHandFrameCount + 1;
    s.(noHandFrameCount := c,
       isHandInFrame := if c > GraceFrames then false else s.isHandInFrame,
       handEdgeWarning := if c > GraceFrames then None else s.handEdgeWarning,
       gesture := None,
       fingerCount := 0)
  }

  /** `detectSwipe` on the whole tracker state: the history is replaced and
      a swipe starts the 300 ms cooldown. */
  function SwipeState(s: TrackerState, x: real, victory: bool, now: int): FrameOutcome {
    var o := SwipeStep(s.positionHistory, s.swipeCooldown, x, victory, now);
    var s1 := s.(positionHistory := o.history);
    if o.fired != None then FrameOutcome(s1.(swipeCooldown := true, cooldownDeadline := now + CooldownMs), o.fired)
    else FrameOutcome(s1, None)
  }

  /** A frame in which a hand `lm` was detected. Reading `landmarks[8].x` and
      `landmarks[12].x` throws for 0 < |lm| < 13 and the frame ends there, as
      it does when the first hand has no gesture category to read a score of. */
  function HandStep(s: TrackerState, lm: seq<Landmark>, gestures: seq<seq<Category>>, now: int): FrameOutcome {
    var s1 := s.(noHandFrameCount := 0, isHandInFrame := true, handEdgeWarning := CheckHandEdge(lm));
    if 0 < |lm| < 13 then FrameOutcome(s1, None)
    else
      var currentX := if |lm| > 0 then 1.0 - (lm[8].x + lm[12].x) / 2.0 else 0.5;
      var s2 := if |lm| > 0 then s1.(handPosition := Position(1.0 - lm[0].x, lm[0].y)) else s1;
      var s3 := s2.(fingerCount := CountFingers(lm));
      GestureStep(s3, lm, gestures, currentX, now)
  }

  /** The rest of a hand frame, once the landmarks have been read: the gesture
      and the swipe detector. */
  function GestureStep(s: TrackerState, lm: seq<Landmark>, gestures: seq<seq<Category>>, currentX: real, now: int): FrameOutcome {
    if |gestures| == 0 then FrameOutcome(s.(gesture := None), None)
    else if IsVictorySign(lm) then
      var o := SwipeState(s.(gesture := Some(VictoryName)), currentX, true, now);
      if o.swipe != None then
        FrameOutcome(o.state.(swipeDirection := o.swipe, pulseDeadline := now + PulseMs), o.swipe)
      else o
    else
      var s4 := SwipeState(s, currentX, false, now).state;
      if |gestures[0]| == 0 then FrameOutcome(s4, None)
      else
        var top := gestures[0][0];
        FrameOutcome(s4.(gesture := if top.score > ScoreThreshold then Some(top.categoryName) else None), None)
  }

  /** One processed video frame; a frame whose recognition threw changes nothing. */
  function FrameStep(s: TrackerState, r: Recognition, now: int): FrameOutcome {
    match r
    case RecognitionFailed => FrameOutcome(s, None)
    case Recognized(hands, gestures) =>
      if |hands| > 0 then HandStep(s, hands[0], gestures, now)
      else FrameOutcome(NoHandStep(s), None)
  }

  /** The timers that are due at `now` fire: the cooldown ends and the swipe
      pulse is cleared. */
  function TickStep(s: TrackerState, now: int): TrackerState {
    s.(swipeCooldown := if s.swipeCooldown && now >= s.cooldownDeadline then false else s.swipeCooldown,
       swipeDirection := if s.swipeDirection != None && now >= s.pulseDeadline then None else s.swipeDirection)
  }

  lemma StepsPreserveValid(s: TrackerState, r: Recognition, now: int)
    requires Valid(s)
    ensures Valid(FrameStep(s, r, now).state) && Valid(TickStep(s, now))
  {
  }

  /** A detected hand resets the no-hand counter and puts the hand in frame. */
  lemma HandResetsCounter(s: TrackerState, hands: seq<seq<Landmark>>, gestures: seq<seq<Category>>, now: int)
    requires |hands| > 0
    ensures var t := FrameStep(s, Recognized(hands, gestures), now).state;
      t.noHandFrameCount == 0 && t.isHandInFrame
      && t.handEdgeWarning == CheckHandEdge(hands[0])
  {
  }

  /** The gesture the frame settles on, for a hand whose landmarks can be read:
      none without categories; Victory when the finger test says so, whatever
      the classifier reported; otherwise the top category if its score is over
      0.5. The hand position is the mirrored wrist. */
  lemma HandGesture(s: TrackerState, lm: seq<Landmark>, gestures: seq<seq<Category>>, now: int)
    requires |lm| >= 13
    ensures var t := FrameStep(s, Recognized([lm], gestures), now).state;
      && t.handPosition == Position(1.0 - lm[0].x, lm[0].y)
      && t.fingerCount == CountFingers(lm)
      && (gestures == [] ==> t.gesture == None && t.positionHistory == s.positionHistory)
      && (gestures != [] && IsVictorySign(lm) ==> t.gesture == Some(VictoryName))
      && (gestures != [] && !IsVictorySign(lm) ==>
            t.positionHistory == []
            && (gestures[0] != [] ==>
                  t.gesture == if gestures[0][0].score > ScoreThreshold then Some(gestures[0][0].categoryName) else None))
  {
  }

  /** Frames with no hand, one after another. */
  function NoHandFrames(s: TrackerState, k: nat): TrackerState
    decreases k
  {
    if k == 0 then s else NoHandStep(NoHandFrames(s, k - 1))
  }

  /** From a frame with a hand, the hand stays in frame through ten frames
      without one and is out of frame from the eleventh on; the gesture is
      cleared by the first. */
  lemma {:induction false} GracePeriod(s: TrackerState, k: nat)
    requires s.noHandFrameCount == 0 && s.isHandInFrame
    ensures NoHandFrames(s, k).noHandFrameCount == k
    ensures NoHandFrames(s, k).isHandInFrame <==> k <= GraceFrames
    ensures k > 0 ==> NoHandFrames(s, k).gesture == None
  {
    if k > 0 {
      GracePeriod(s, k - 1);
    }
  }

  /** Events that reach the hook: a processed frame or a timer check. */
  datatype TrackerEvent = Frame(r: Recognition, time: int) | Timers(time: int)

  predicate AllBefore(evs: seq<TrackerEvent>, deadline: int) {
    forall i :: 0 <= i < |evs| ==> evs[i].time < deadline
  }

  /** The swipes fired by a run of events. */
  function RunSwipes(s: TrackerState, evs: seq<TrackerEvent>): (TrackerState, seq<Swipe>)
    decreases |evs|
  {
    if evs == [] then (s, [])
    else
      var (t, fired) := RunSwipes(s, evs[..|evs| - 1]);
      match evs[|evs| - 1]
      case Frame(r, now) =>
        var o := FrameStep(t, r, now);
        (o.state, fired + (if o.swipe.Some? then [o.swipe.value] else []))
      case Timers(now) => (TickStep(t, now), fired)
  }

  /** Once a swipe has started the cooldown, no frame or timer event before its
      deadline fires a second swipe, and the cooldown stays on. */
  lemma {:induction false} NoSwipeDuringCooldown(s: TrackerState, evs: seq<TrackerEvent>)
    requires s.swipeCooldown && AllBefore(evs, s.cooldownDeadline)
    ensures RunSwipes(s, evs).1 == []
    ensures RunSwipes(s, evs).0.swipeCooldown
    ensures RunSwipes(s, evs).0.cooldownDeadline == s.cooldownDeadline
    decreases |evs|
  {
    if evs != [] {
      var init := evs[..|evs| - 1];
      assert AllBefore(init, s.cooldownDeadline) by {
        forall i | 0 <= i < |init| ensures init[i].time < s.cooldownDeadline {
          assert init[i] == evs[i];
        }
      }
      NoSwipeDuringCooldown(s, init);
      assert evs[|evs| - 1].time < s.cooldownDeadline;
    }
  }

  /* ---------------- The hook's state as an object ---------------- */

  class HandTracker {
    var gesture: Option<string>
    var handPosition: Position
    var fingerCount: nat
    var swipeDirection: Option<Swipe>
    var isHandInFrame: bool
    var handEdgeWarning: Option<Edge>
    var noHandFrameCount: nat
    var positionHistory: seq<Sample>
    var swipeCooldown: bool
    var cooldownDeadline: int
    var pulseDeadline: int

    function State(): TrackerState
      reads this
    {
      TrackerState(gesture, handPosition, fingerCount, swipeDirection, isHandInFrame,
                   handEdgeWarning, noHandFrameCount, positionHistory, swipeCooldown,
                   cooldownDeadline, pulseDeadline)
    }

    constructor ()
      ensures State() == InitialState
    {
      gesture := None;
      handPosition := Position(0.5, 0.5);
      fingerCount := 0;
      swipeDirection := None;
      isHandInFrame := false;
      handEdgeWarning := None;
      noHandFrameCount := 0;
      positionHistory := [];
      swipeCooldown := false;
      cooldownDeadline := 0;
      pulseDeadline := 0;
    }

    /** `detectSwipe`: updates the history in place and starts the cooldown on a swipe. */
    method DetectSwipe(currentX: real, isVictory: bool, now: int) returns (fired: Option<Swipe>)
      modifies this
      ensures State() == SwipeState(old(State()), currentX, isVictory, now).state
      ensures fired == SwipeState(old(State()), currentX, isVictory, now).swipe
    {
      fired := None;
      if !isVictory {
        positionHistory := [];
        return;
      }
      if swipeCooldown {
        return;
      }
      PushSample(Sample(currentX, now));
      if |positionHistory| < MinSamples {
        return;
      }
      fired := JudgeHistory(now);
    }

    /** `push` the sample and `shift` the oldest one when over the limit. */
    method PushSample(sample: Sample)
      modifies this
      ensures State() == old(State()).(positionHistory := Window(old(positionHistory), sample))
    {
      positionHistory := positionHistory + [sample];
      if |positionHistory| > HistoryLimit {
        positionHistory := positionHistory[1..];
      }
    }

    /** The trigger test on a history of at least three samples. */
    method JudgeHistory(now: int) returns (fired: Option<Swipe>)
      requires |positionHistory| >= MinSamples
      modifies this
      ensures var dx := Displacement(old(positionHistory));
        if Triggers(dx, Elapsed(old(positionHistory))) then
          fired == Some(if dx > 0.0 then SwipeRight else SwipeLeft)
          && State() == old(State()).(positionHistory := [], swipeCooldown := true, cooldownDeadline := now + CooldownMs)
        else fired == None && State() == old(State())
    {
      fired := None;
      var deltaX := positionHistory[|positionHistory| - 1].x - positionHistory[0].x;
      var deltaTime := positionHistory[|positionHistory| - 1].time - positionHistory[0].time;
      if Abs(deltaX) > SwipeThreshold || (Fast(deltaX, deltaTime) && Abs(deltaX) > FastSwipeThreshold) {
        fired := Some(if deltaX > 0.0 then SwipeRight else SwipeLeft);
        positionHistory := [];
        swipeCooldown := true;
        cooldownDeadline := now + CooldownMs;
      }
    }

    /** The body of `predictWebcam` for one processed frame. */
    method ProcessFrame(r: Recognition, now: int) returns (swipe: Option<Swipe>)
      modifies this
      ensures State() == FrameStep(old(State()), r, now).state
      ensures swipe == FrameStep(old(State()), r, now).swipe
    {
      swipe := None;
      if r.RecognitionFailed? {
        return;
      }
      if |r.landmarks| > 0 {
        swipe := HandFrame(r.landmarks[0], r.gestures, now);
      } else {
        noHandFrameCount := noHandFrameCount + 1;
        if noHandFrameCount > GraceFrames {
          isHandInFrame := false;
          handEdgeWarning := None;
        }
        gesture := None;
        fingerCount := 0;
      }
    }

    /** The branch of `predictWebcam` for a frame in which a hand was detected. */
    method HandFrame(lm: seq<Landmark>, gestures: seq<seq<Category>>, now: int) returns (swipe: Option<Swipe>)
      modifies this
      ensures State() == HandStep(old(State()), lm, gestures, now).state
      ensures swipe == HandStep(old(State()), lm, gestures, now).swipe
    {
      ghost var s0 := State();
      swipe := None;
      noHandFrameCount := 0;
      isHandInFrame := true;
      handEdgeWarning := CheckHandEdge(lm);
      ghost var s1 := s0.(noHandFrameCount := 0, isHandInFrame := true, handEdgeWarning := CheckHandEdge(lm));
      assert State() == s1;
      if 0 < |lm| < 13 {
        return;
      }
      var currentX := 0.5;
      if |lm| > 0 {
        currentX := 1.0 - (lm[8].x + lm[12].x) / 2.0;
        handPosition := Position(1.0 - lm[0].x, lm[0].y);
      }
      fingerCount := CountFingers(lm);
      ghost var s3 := State();
      assert s3 == (if |lm| > 0 then s1.(handPosition := Position(1.0 - lm[0].x, lm[0].y)) else s1).(fingerCount := CountFingers(lm));
      assert HandStep(s0, lm, gestures, now) == GestureStep(s3, lm, gestures, currentX, now);
      swipe := GestureFrame(lm, gestures, currentX, now);
    }

    method GestureFrame(lm: seq<Landmark>, gestures: seq<seq<Category>>, currentX: real, now: int) returns (swipe: Option<Swipe>)
      modifies this
      ensures State() == GestureStep(old(State()), lm, gestures, currentX, now).state
      ensures swipe == GestureStep(old(State()), lm, gestures, currentX, now).swipe
    {
      swipe := None;
      if |gestures| == 0 {
        gesture := None;
        return;
      }
      if IsVictorySign(lm) {
        gesture := Some(VictoryName);
        swipe := DetectSwipe(currentX, true, now);
        if swipe != None {
          swipeDirection := swipe;
          pulseDeadline := now + PulseMs;
        }
      } else {
        var _ := DetectSwipe(currentX, false, now);
        if |gestures[0]| == 0 {
          return;
        }
        var top := gestures[0][0];
        if top.score > ScoreThreshold {
          gesture := Some(top.categoryName);
        } else {
          gesture := None;
        }
      }
    }

    /** The pending `setTimeout` callbacks that are due at `now` run. */
    method Tick(now: int)
      modifies this
      ensures State() == TickStep(old(State()), now)
    {
      if swipeCooldown && now >= cooldownDeadline {
        swipeCooldown := false;
      }
      if swipeDirection != None && now >= pulseDeadline {
        swipeDirection := None;
      }
    }
  }

}
