/**
 * The pure feature extractors of the hand-tracking hook
 * (src/cmps/GalaxyMode/useHandTracking.js): finger counting, the Victory
 * pose test and frame-edge proximity, all over one frame of 21 normalised
 * landmarks (x and y in image coordinates, smaller y is higher).
 */
module HandFeatures {
  import opened Wrappers

  datatype Landmark = Landmark(x: real, y: real)

  /** Number of landmarks in a complete hand frame. */
  const FrameSize: nat := 21
  /** Horizontal thumb spread above which the thumb counts as extended. */
  const ThumbSpread: real := 0.05
  /** Distance from a border (as a fraction of the frame) that raises an edge warning. */
  const EdgeMargin: real := 0.12

  function Abs(r: real): real {
    if r < 0.0 then -r else r
  }

  datatype Finger = Thumb | Index | Middle | Ring | Pinky

  const AllFingers: set<Finger> := {Thumb, Index, Middle, Ring, Pinky}

  /** Landmark index of a finger's tip. */
  function Tip(f: Finger): nat {
    match f
    case Thumb => 4
    case Index => 8
    case Middle => 12
    case Ring => 16
    case Pinky => 20
  }

  /** Landmark index of the joint a tip is compared with: the thumb's knuckle,
      the other fingers' PIP joints. */
  function Joint(f: Finger): nat {
    match f
    case Thumb => 2
    case Index => 6
    case Middle => 10
    case Ring => 14
    case Pinky => 18
  }

  /** The thumb is extended when its tip is far enough to the side of its
      knuckle; any other finger when its tip is strictly above its PIP joint. */
  predicate Extended(lm: seq<Landmark>, f: Finger)
    requires |lm| >= FrameSize
  {
    if f == Thumb then Abs(lm[Tip(f)].x - lm[Joint(f)].x) > ThumbSpread
    else lm[Tip(f)].y < lm[Joint(f)].y
  }

  /** A finger other than the thumb is retracted when its tip is strictly below
      its PIP joint. A tip level with its joint is neither up nor down. */
  predicate Retracted(lm: seq<Landmark>, f: Finger)
    requires |lm| >= FrameSize
  {
    lm[Tip(f)].y > lm[Joint(f)].y
  }

  /** The set of extended fingers; empty for a malformed frame. */
  function ExtendedFingers(lm: seq<Landmark>): set<Finger> {
    if |lm| < FrameSize then {} else set f | f in AllFingers && Extended(lm, f)
  }

  /** `countFingers`. */
  function CountFingers(lm: seq<Landmark>): nat {
    if |lm| < FrameSize then 0
    else
      (if Abs(lm[4].x - lm[2].x) > ThumbSpread then 1 else 0)
      + (if lm[8].y < lm[6].y then 1 else 0)
      + (if lm[12].y < lm[10].y then 1 else 0)
      + (if lm[16].y < lm[14].y then 1 else 0)
      + (if lm[20].y < lm[18].y then 1 else 0)
  }

  function Indicator(b: bool): nat {
    if b then 1 else 0
  }

  function Only(b: bool, f: Finger): set<Finger> {
    if b then {f} else {}
  }

  lemma CardOnly(s: set<Finger>, b: bool, f: Finger)
    requires f !in s
    ensures |s + Only(b, f)| == |s| + Indicator(b)
  {
  }

  /** The union of one singleton per extended finger. */
  function Union(lm: seq<Landmark>): set<Finger>
    requires |lm| >= FrameSize
  {
    Union4(Extended(lm, Thumb), Extended(lm, Index), Extended(lm, Middle), Extended(lm, Ring))
    + Only(Extended(lm, Pinky), Pinky)
  }

  lemma ExtendedFingersAsUnion(lm: seq<Landmark>)
    requires |lm| >= FrameSize
    ensures ExtendedFingers(lm) == Union(lm)
  {
    forall f | f in ExtendedFingers(lm) ensures f in Union(lm) {
      assert f in AllFingers && Extended(lm, f);
    }
  }

  function Union2(b0: bool, b1: bool): set<Finger> {
    Only(b0, Thumb) + Only(b1, Index)
  }

  function Union3(b0: bool, b1: bool, b2: bool): set<Finger> {
    Union2(b0, b1) + Only(b2, Middle)
  }

  function Union4(b0: bool, b1: bool, b2: bool, b3: bool): set<Finger> {
    Union3(b0, b1, b2) + Only(b3, Ring)
  }

  lemma Card2(b0: bool, b1: bool)
    ensures Union2(b0, b1) <= {Thumb, Index}
    ensures |Union2(b0, b1)| == Indicator(b0) + Indicator(b1)
  {
    CardOnly(Only(b0, Thumb), b1, Index);
  }

  lemma Card3(b0: bool, b1: bool, b2: bool)
    ensures Union3(b0, b1, b2) <= {Thumb, Index, Middle}
    ensures |Union3(b0, b1, b2)| == Indicator(b0) + Indicator(b1) + Indicator(b2)
  {
    Card2(b0, b1);
    CardOnly(Union2(b0, b1), b2, Middle);
  }

  lemma Card4(b0: bool, b1: bool, b2: bool, b3: bool)
    ensures Union4(b0, b1, b2, b3) <= {Thumb, Index, Middle, Ring}
    ensures |Union4(b0, b1, b2, b3)| == Indicator(b0) + Indicator(b1) + Indicator(b2) + Indicator(b3)
  {
    Card3(b0, b1, b2);
    CardOnly(Union3(b0, b1, b2), b3, Ring);
  }

  /** One singleton per true test: as many fingers as true tests. */
  lemma FiveCard(b0: bool, b1: bool, b2: bool, b3: bool, b4: bool)
    ensures |Union4(b0, b1, b2, b3) + Only(b4, Pinky)|
      == Indicator(b0) + Indicator(b1) + Indicator(b2) + Indicator(b3) + Indicator(b4)
  {
    Card4(b0, b1, b2, b3);
    CardOnly(Union4(b0, b1, b2, b3), b4, Pinky);
  }

  /** The count is the number of extended fingers, so it lies in [0, 5] and is
      0 for a frame with fewer than 21 landmarks. */
  lemma CountFingersIsExtendedCount(lm: seq<Landmark>)
    ensures CountFingers(lm) == |ExtendedFingers(lm)|
    ensures CountFingers(lm) <= 5
    ensures |lm| < FrameSize ==> CountFingers(lm) == 0
  {
    if |lm| >= FrameSize {
      ExtendedFingersAsUnion(lm);
      FiveCard(Extended(lm, Thumb), Extended(lm, Index), Extended(lm, Middle), Extended(lm, Ring), Extended(lm, Pinky));
      CountFingersAsIndicators(lm);
    }
  }

  lemma CountFingersAsIndicators(lm: seq<Landmark>)
    requires |lm| >= FrameSize
    ensures CountFingers(lm) == Indicator(Extended(lm, Thumb)) + Indicator(Extended(lm, Index))
        + Indicator(Extended(lm, Middle)) + Indicator(Extended(lm, Ring)) + Indicator(Extended(lm, Pinky))
  {
  }

  /** Each finger is counted exactly when its own test holds. */
  lemma ExtendedFingersMembers(lm: seq<Landmark>, f: Finger)
    requires |lm| >= FrameSize
    ensures f in ExtendedFingers(lm) <==> Extended(lm, f)
  {
  }

  /** `isVictorySign`: index and middle finger up, ring finger and pinky down. */
  function IsVictorySign(lm: seq<Landmark>): bool {
    |lm| >= FrameSize
    && lm[8].y < lm[6].y && lm[12].y < lm[10].y
    && lm[16].y > lm[14].y && lm[20].y > lm[18].y
  }

  /** The Victory pose in terms of fingers: index and middle extended, ring and
      pinky retracted, the thumb free; so two or three fingers are counted. */
  lemma VictoryIsTwoFingers(lm: seq<Landmark>)
    ensures IsVictorySign(lm) <==>
      |lm| >= FrameSize && Index in ExtendedFingers(lm) && Middle in ExtendedFingers(lm)
      && Retracted(lm, Ring) && Retracted(lm, Pinky)
    ensures IsVictorySign(lm) ==>
      Ring !in ExtendedFingers(lm) && Pinky !in ExtendedFingers(lm) && 2 <= CountFingers(lm) <= 3
  {
    CountFingersIsExtendedCount(lm);
  }

  /** A ring finger whose tip is level with its joint is neither extended nor
      retracted, and rules out the Victory pose. */
  lemma LevelRingFingerIsNotVictory(lm: seq<Landmark>)
    requires |lm| >= FrameSize && lm[16].y == lm[14].y
    ensures Ring !in ExtendedFingers(lm) && !Retracted(lm, Ring) && !IsVictorySign(lm)
  {
  }

  datatype Edge = Left | Right | Top | Bottom

  /** `checkHandEdge`: the wrist (landmark 0) tested against the four margins in
      a fixed order. The raw x axis is mirrored on screen, so a wrist near raw
      x = 0 is reported as `Right`. */
  function CheckHandEdge(lm: seq<Landmark>): Option<Edge> {
    if |lm| < FrameSize then None
    else
      var x, y := lm[0].x, lm[0].y;
      if x < EdgeMargin then Some(Right)
      else if x > 1.0 - EdgeMargin then Some(Left)
      else if y < EdgeMargin then Some(Top)
      else if y > 1.0 - EdgeMargin then Some(Bottom)
      else None
  }

  /** The wrist lies within the margin of the (mirrored) edge `e`. */
  predicate Near(w: Landmark, e: Edge) {
    match e
    case Right => w.x < EdgeMargin
    case Left => w.x > 1.0 - EdgeMargin
    case Top => w.y < EdgeMargin
    case Bottom => w.y > 1.0 - EdgeMargin
  }

  /** Position of an edge in the order the margins are tested. */
  function Rank(e: Edge): nat {
    match e
    case Right => 0
    case Left => 1
    case Top => 2
    case Bottom => 3
  }

  /** The reported edge is the first edge, in test order, whose margin the
      wrist is in; no edge is reported when the wrist is in none of them or the
      frame is malformed. */
  lemma CheckHandEdgeFirstMatch(lm: seq<Landmark>, e: Edge)
    ensures CheckHandEdge(lm) == Some(e) <==>
      |lm| >= FrameSize && Near(lm[0], e)
      && forall d: Edge :: Rank(d) < Rank(e) ==> !Near(lm[0], d)
    ensures CheckHandEdge(lm) == None <==>
      |lm| < FrameSize || forall d: Edge :: !Near(lm[0], d)
  {
    if |lm| >= FrameSize {
      var w := lm[0];
      if forall d: Edge :: !Near(w, d) {
        assert !Near(w, Right) && !Near(w, Left) && !Near(w, Top) && !Near(w, Bottom);
      } else {
        assert Near(w, Right) || Near(w, Left) || Near(w, Top) || Near(w, Bottom);
      }
      match e
      case Right =>
      case Left => assert Rank(Right) < Rank(Left);
      case Top => assert Rank(Right) < Rank(Top) && Rank(Left) < Rank(Top);
      case Bottom => assert Rank(Right) < Rank(Bottom) && Rank(Left) < Rank(Bottom) && Rank(Top) < Rank(Bottom);
    }
  }

}
