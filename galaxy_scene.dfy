/**
 * Gesture-driven targets of the 3D scene (src/cmps/GalaxyMode/GalaxyScene.jsx)
 * and the per-frame easing towards them. Every frame callback eases a value
 * towards a target chosen from the gesture: the camera distance, orbit angles,
 * particle rotation, and each photo card's position, scale and opacities.
 * Angles and positions that the source computes with trigonometry or random
 * numbers (the spiral layout, the camera's spherical coordinates) are inputs
 * here; `delta` is the frame time in seconds.
 */
module GalaxyScene {
  import opened Wrappers
  import opened Basics

  const Pi: real := 3.141592653589793
  const OpenPalm: string := "Open_Palm"
  const ClosedFist: string := "Closed_Fist"

  /** `getTargetZoom`: close in for a fist, follow the hand's height for an
      open palm (a lower hand dives closer), 45 otherwise. */
  function TargetZoom(gesture: Option<string>, handY: real): real {
    if gesture == Some(ClosedFist) then 25.0
    else if gesture == Some(OpenPalm) then 80.0 - handY * (80.0 - 30.0)
    else 45.0
  }

  /** For a hand inside the frame the open-palm zoom stays within [30, 80],
      and moving the hand down never moves the camera away. */
  lemma OpenPalmZoomRange(y: real, y2: real)
    requires 0.0 <= y <= 1.0
    ensures 30.0 <= TargetZoom(Some(OpenPalm), y) <= 80.0
    ensures y <= y2 ==> TargetZoom(Some(OpenPalm), y2) <= TargetZoom(Some(OpenPalm), y)
  {
  }

  /** Every target zoom for a hand in the frame lies within [25, 80]. */
  lemma TargetZoomRange(g: Option<string>, y: real)
    requires 0.0 <= y <= 1.0
    ensures 25.0 <= TargetZoom(g, y) <= 80.0
    ensures g != Some(OpenPalm) ==> TargetZoom(g, y) == if g == Some(ClosedFist) then 25.0 else 45.0
  {
  }

  function Min(a: real, b: real): real {
    if a <= b then a else b
  }

  function Max(a: real, b: real): real {
    if a <= b then b else a
  }

  function Dist(a: real, b: real): real {
    if a <= b then b - a else a - b
  }

  /** `THREE.MathUtils.lerp(x, y, t)`. */
  function Lerp(x: real, y: real, t: real): real {
    (1.0 - t) * x + t * y
  }

  /** With t in [0, 1] the result lies between the two ends, is no farther
      from the target than the start, and reaches it at t = 1. */
  lemma LerpBetween(x: real, y: real, t: real)
    requires 0.0 <= t <= 1.0
    ensures Min(x, y) <= Lerp(x, y, t) <= Max(x, y)
    ensures Dist(Lerp(x, y, t), y) == (1.0 - t) * Dist(x, y)
    ensures Dist(Lerp(x, y, t), y) <= Dist(x, y)
    ensures t == 1.0 ==> Lerp(x, y, t) == y
    ensures t == 0.0 ==> Lerp(x, y, t) == x
  {
    var l := Lerp(x, y, t);
    assert l - y == (1.0 - t) * (x - y);
    assert l - x == t * (y - x);
    if x <= y {
      MulNonNeg(1.0 - t, y - x);
      MulNonNeg(t, y - x);
      assert Dist(l, y) == (1.0 - t) * (y - x);
    } else {
      MulNonNeg(1.0 - t, x - y);
      MulNonNeg(t, x - y);
      assert Dist(l, y) == (1.0 - t) * (x - y);
    }
  }

  datatype Vec3 = Vec3(x: real, y: real, z: real)

  /** `Vector3.lerp(v, alpha)`: each coordinate moves the fraction alpha of the way. */
  function LerpVec(a: Vec3, b: Vec3, alpha: real): Vec3 {
    Vec3(a.x + (b.x - a.x) * alpha, a.y + (b.y - a.y) * alpha, a.z + (b.z - a.z) * alpha)
  }

  /** Vector easing is coordinate-wise scalar easing. */
  lemma LerpVecIsLerp(a: Vec3, b: Vec3, alpha: real)
    ensures LerpVec(a, b, alpha) == Vec3(Lerp(a.x, b.x, alpha), Lerp(a.y, b.y, alpha), Lerp(a.z, b.z, alpha))
  {
  }

  /* ---------------- Photo cards ---------------- */

  /** The open palm scatters the cards; any other gesture gathers them. */
  function TargetPosition(gesture: Option<string>, base: Vec3, dispersed: Vec3): Vec3 {
    if gesture == Some(OpenPalm) then dispersed else base
  }

  datatype CardTargets = CardTargets(scale: real, photoOpacity: real, starOpacity: real)

  /** A fist shows the photos large; otherwise they are tiny stars. Selection,
      and failing that hovering, enlarge a shown photo. */
  function TargetsFor(gesture: Option<string>, isSelected: bool, hovered: bool): CardTargets {
    var zoomIn := gesture == Some(ClosedFist);
    var scale := if zoomIn then 2.5 else 0.06;
    var photo := if zoomIn then 1.0 else 0.0;
    var star := if zoomIn then 0.0 else 1.0;
    var scale' := if zoomIn then (if isSelected then scale * 1.5 else if hovered then scale * 1.15 else scale) else scale;
    CardTargets(scale', photo, star)
  }

  /** The card targets by case: selection beats hovering and both apply only
      to zoomed-in photos; exactly one of the photo and the star is visible;
      the card heads for its dispersed position exactly under the open palm. */
  lemma CardTargetCases(g: Option<string>, isSelected: bool, hovered: bool, base: Vec3, dispersed: Vec3)
    ensures var c := TargetsFor(g, isSelected, hovered);
      && (g == Some(ClosedFist) ==>
            c.photoOpacity == 1.0 && c.starOpacity == 0.0
            && c.scale == (if isSelected then 3.75 else if hovered then 2.875 else 2.5))
      && (g != Some(ClosedFist) ==> c == CardTargets(0.06, 0.0, 1.0))
      && c.photoOpacity + c.starOpacity == 1.0
      && c.scale >= TargetsFor(g, false, false).scale
    ensures base != dispersed ==> (TargetPosition(g, base, dispersed) == dispersed <==> g == Some(OpenPalm))
  {
  }

  /** The card's eased values, and its hover flag. */
  datatype Card = Card(position: Vec3, scale: real, photoOpacity: real, starOpacity: real, hovered: bool)

  /** One frame of a card: every value eases towards its target, the position
      at 1.2 times delta, the scale at 2 times, the opacities at 3 times. */
  function CardStep(c: Card, gesture: Option<string>, isSelected: bool, base: Vec3, dispersed: Vec3, delta: real): Card {
    var t := TargetsFor(gesture, isSelected, c.hovered);
    Card(
      LerpVec(c.position, TargetPosition(gesture, base, dispersed), delta * 1.2),
      Lerp(c.scale, t.scale, delta * 2.0),
      Lerp(c.photoOpacity, t.photoOpacity, delta * 3.0),
      Lerp(c.starOpacity, t.starOpacity, delta * 3.0),
      c.hovered)
  }

  /** Opacities in [0, 1] and a positive scale. */
  predicate CardValid(c: Card) {
    0.0 <= c.photoOpacity <= 1.0 && 0.0 <= c.starOpacity <= 1.0 && c.scale > 0.0
  }

  /** Frames of at most a third of a second keep the opacities in [0, 1] and
      the scale positive, and bring the scale no farther from its target. */
  lemma CardStepValid(c: Card, g: Option<string>, sel: bool, base: Vec3, dispersed: Vec3, delta: real)
    requires CardValid(c) && 0.0 <= delta <= 1.0 / 3.0
    ensures CardValid(CardStep(c, g, sel, base, dispersed, delta))
    ensures var target := TargetsFor(g, sel, c.hovered).scale;
      Dist(CardStep(c, g, sel, base, dispersed, delta).scale, target) <= Dist(c.scale, target)
  {
    var t := TargetsFor(g, sel, c.hovered);
    LerpBetween(c.scale, t.scale, delta * 2.0);
    LerpBetween(c.photoOpacity, t.photoOpacity, delta * 3.0);
    LerpBetween(c.starOpacity, t.starOpacity, delta * 3.0);
  }

  /** `PhotoCard`'s refs and hover state. */
  class PhotoCard {
    var position: Vec3
    var scale: real
    var photoOpacity: real
    var starOpacity: real
    var hovered: bool

    function State(): Card
      reads this
    {
      Card(position, scale, photoOpacity, starOpacity, hovered)
    }

    /** A new card starts as a visible star at its base position. */
    constructor (base: Vec3)
      ensures State() == Card(base, 0.06, 0.0, 1.0, false) && CardValid(State())
    {
      position := base;
      scale := 0.06;
      photoOpacity := 0.0;
      starOpacity := 1.0;
      hovered := false;
    }

    method PointerOver()
      modifies this
      ensures State() == old(State()).(hovered := true)
    {
      hovered := true;
    }

    method PointerOut()
      modifies this
      ensures State() == old(State()).(hovered := false)
    {
      hovered := false;
    }

    /** The card's `useFrame` callback. */
    method Frame(gesture: Option<string>, isSelected: bool, base: Vec3, dispersed: Vec3, delta: real)
      modifies this
      ensures State() == CardStep(old(State()), gesture, isSelected, base, dispersed, delta)
    {
      var isZoomIn := gesture == Some(ClosedFist);
      var target := if gesture == Some(OpenPalm) then dispersed else base;
      position := LerpVec(position, target, delta * 1.2);
      var targetScale, targetPhotoOpacity, targetStarOpacity;
      if isZoomIn {
        targetScale, targetPhotoOpacity, targetStarOpacity := 2.5, 1.0, 0.0;
      } else {
        targetScale, targetPhotoOpacity, targetStarOpacity := 0.06, 0.0, 1.0;
      }
      if isZoomIn {
        targetScale := if isSelected then targetScale * 1.5 else if hovered then targetScale * 1.15 else targetScale;
      }
      scale := Lerp(scale, targetScale, delta * 2.0);
      photoOpacity := Lerp(photoOpacity, targetPhotoOpacity, delta * 3.0);
      starOpacity := Lerp(starOpacity, targetStarOpacity, delta * 3.0);
    }
  }

  /* ---------------- Camera ---------------- */

  datatype Hand = Hand(x: real, y: real)

  datatype Camera = Camera(distance: real, azimuth: real, polar: real)

  const InitialCamera: Camera := Camera(45.0, 0.0, Pi / 3.0)

  /** The zoom gestures steer the camera; the others let it drift. */
  predicate Steers(gesture: Option<string>) {
    gesture == Some(OpenPalm) || gesture == Some(ClosedFist)
  }

  function TargetAzimuth(h: Hand): real {
    (h.x - 0.5) * Pi * 1.5
  }

  function TargetPolar(gesture: Option<string>, h: Hand): real {
    if gesture == Some(OpenPalm) then Pi / 4.0 + h.y * Pi * 0.3
    else Pi / 3.0 + (h.y - 0.5) * Pi * 0.3
  }

  /** One frame of `CameraController`: the distance eases to the target zoom;
      a steering gesture eases the orbit to the hand, any other gesture turns
      the azimuth at 0.1 radians per second. */
  function CameraStep(c: Camera, gesture: Option<string>, h: Hand, delta: real): Camera {
    var d := Lerp(c.distance, TargetZoom(gesture, h.y), delta * 1.5);
    if Steers(gesture) then
      Camera(d, Lerp(c.azimuth, TargetAzimuth(h), delta * 1.5), Lerp(c.polar, TargetPolar(gesture, h), delta * 1.5))
    else Camera(d, c.azimuth + delta * 0.1, c.polar)
  }

  /** The orbit follows the hand only under a steering gesture and then moves
      towards the hand's angles; otherwise only the azimuth changes, by
      0.1 * delta. */
  lemma CameraOrbit(c: Camera, g: Option<string>, h: Hand, delta: real)
    requires 0.0 <= delta * 1.5 <= 1.0
    ensures var c' := CameraStep(c, g, h, delta);
      && (!Steers(g) ==> c'.azimuth == c.azimuth + 0.1 * delta && c'.polar == c.polar)
      && (Steers(g) ==>
            Dist(c'.azimuth, TargetAzimuth(h)) <= Dist(c.azimuth, TargetAzimuth(h))
            && Dist(c'.polar, TargetPolar(g, h)) <= Dist(c.polar, TargetPolar(g, h)))
      && Min(c.distance, TargetZoom(g, h.y)) <= c'.distance <= Max(c.distance, TargetZoom(g, h.y))
  {
    LerpBetween(c.distance, TargetZoom(g, h.y), delta * 1.5);
    if Steers(g) {
      LerpBetween(c.azimuth, TargetAzimuth(h), delta * 1.5);
      LerpBetween(c.polar, TargetPolar(g, h), delta * 1.5);
    }
  }

  /** The camera after a run of frames with one gesture and hand position. */
  function CameraFrames(c: Camera, g: Option<string>, h: Hand, deltas: seq<real>): Camera
    decreases |deltas|
  {
    if deltas == [] then c
    else CameraFrames(CameraStep(c, g, h, deltas[0]), g, h, deltas[1..])
  }

  /** Holding a gesture still, the camera distance never moves away from the
      target zoom, and after any run of frames it lies between where it
      started and the target. */
  lemma {:induction false} CameraDistanceConverges(c: Camera, g: Option<string>, h: Hand, deltas: seq<real>)
    requires forall i :: 0 <= i < |deltas| ==> 0.0 <= deltas[i] * 1.5 <= 1.0
    ensures var z := TargetZoom(g, h.y);
      Dist(CameraFrames(c, g, h, deltas).distance, z) <= Dist(c.distance, z)
      && Min(c.distance, z) <= CameraFrames(c, g, h, deltas).distance <= Max(c.distance, z)
    decreases |deltas|
  {
    if deltas != [] {
      var z := TargetZoom(g, h.y);
      LerpBetween(c.distance, z, deltas[0] * 1.5);
      var c1 := CameraStep(c, g, h, deltas[0]);
      assert forall i :: 0 <= i < |deltas[1..]| ==> deltas[1..][i] == deltas[i + 1];
      CameraDistanceConverges(c1, g, h, deltas[1..]);
    }
  }

  class CameraController {
    var currentDistance: real
    var currentAzimuth: real
    var currentPolar: real

    function State(): Camera
      reads this
    {
      Camera(currentDistance, currentAzimuth, currentPolar)
    }

    constructor ()
      ensures State() == InitialCamera
    {
      currentDistance := 45.0;
      currentAzimuth := 0.0;
      currentPolar := Pi / 3.0;
    }

    /** The controller's `useFrame` callback. */
    method Frame(gesture: Option<string>, h: Hand, delta: real)
      modifies this
      ensures State() == CameraStep(old(State()), gesture, h, delta)
    {
      var targetZoom := TargetZoom(gesture, h.y);
      currentDistance := Lerp(currentDistance, targetZoom, delta * 1.5);
      if gesture == Some(OpenPalm) || gesture == Some(ClosedFist) {
        var targetAzimuth := (h.x - 0.5) * Pi * 1.5;
        var targetPolar := if gesture == Some(OpenPalm) then Pi / 4.0 + h.y * Pi * 0.3
          else Pi / 3.0 + (h.y - 0.5) * Pi * 0.3;
        currentAzimuth := Lerp(currentAzimuth, targetAzimuth, delta * 1.5);
        currentPolar := Lerp(currentPolar, targetPolar, delta * 1.5);
      } else {
        currentAzimuth := currentAzimuth + delta * 0.1;
      }
    }
  }

  /* ---------------- Background particles ---------------- */

  datatype Rotation = Rotation(y: real, x: real)

  /** One frame of `GalaxyParticles`: under a steering gesture the rotation
      eases to the hand; otherwise it turns about y at 0.03 radians per second. */
  function ParticlesStep(r: Rotation, gesture: Option<string>, h: Hand, delta: real): Rotation {
    if Steers(gesture) then
      Rotation(Lerp(r.y, (h.x - 0.5) * Pi * 1.5, delta * 1.5), Lerp(r.x, (h.y - 0.5) * Pi * 0.3, delta * 1.5))
    else Rotation(r.y + delta * 0.03, r.x)
  }

  /** A centred hand under a steering gesture pulls the particles back to no
      rotation; without one they keep turning slowly about y only. */
  lemma ParticlesFollowHand(r: Rotation, g: Option<string>, delta: real)
    requires 0.0 <= delta * 1.5 <= 1.0
    ensures var r' := ParticlesStep(r, g, Hand(0.5, 0.5), delta);
      && (Steers(g) ==> Dist(r'.y, 0.0) <= Dist(r.y, 0.0) && Dist(r'.x, 0.0) <= Dist(r.x, 0.0))
      && (!Steers(g) ==> r' == Rotation(r.y + 0.03 * delta, r.x))
  {
    LerpBetween(r.y, 0.0, delta * 1.5);
    LerpBetween(r.x, 0.0, delta * 1.5);
    assert (0.5 - 0.5) * Pi * 1.5 == 0.0 && (0.5 - 0.5) * Pi * 0.3 == 0.0;
  }

  class GalaxyParticles {
    var currentRotationY: real
    var currentRotationX: real

    constructor ()
      ensures currentRotationY == 0.0 && currentRotationX == 0.0
    {
      currentRotationY := 0.0;
      currentRotationX := 0.0;
    }

    method Frame(gesture: Option<string>, h: Hand, delta: real)
      modifies this
      ensures Rotation(currentRotationY, currentRotationX)
        == ParticlesStep(Rotation(old(currentRotationY), old(currentRotationX)), gesture, h, delta)
    {
      if gesture == Some(OpenPalm) || gesture == Some(ClosedFist) {
        var targetRotationY := (h.x - 0.5) * Pi * 1.5;
        var targetRotationX := (h.y - 0.5) * Pi * 0.3;
        currentRotationY := Lerp(currentRotationY, targetRotationY, delta * 1.5);
        currentRotationX := Lerp(currentRotationX, targetRotationX, delta * 1.5);
      } else {
        currentRotationY := currentRotationY + delta * 0.03;
      }
    }
  }

  /* ---------------- Lighting ---------------- */

  function AmbientIntensity(gesture: Option<string>): real {
    if gesture == Some(ClosedFist) then 1.2 else 0.8
  }

  function BloomIntensity(gesture: Option<string>): real {
    if gesture == Some(OpenPalm) then 0.6 else if gesture == Some(ClosedFist) then 0.3 else 0.4
  }

  /** The fist brightens the ambient light and has the weakest bloom; the open
      palm the strongest; every other gesture, or none, the defaults. */
  lemma LightingByGesture(g: Option<string>)
    ensures AmbientIntensity(g) > 0.8 <==> g == Some(ClosedFist)
    ensures BloomIntensity(g) == 0.6 <==> g == Some(OpenPalm)
    ensures BloomIntensity(g) == 0.3 <==> g == Some(ClosedFist)
    ensures 0.3 <= BloomIntensity(g) <= 0.6
    ensures !Steers(g) ==> AmbientIntensity(g) == 0.8 && BloomIntensity(g) == 0.4
  {
  }

}
