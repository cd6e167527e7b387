/**
 * The refactored per-frame camera (`CameraController`): progress picks the bracketing pair of
 * waypoints, the local fraction is eased with smoothstep, the target pose is lerped between
 * the pair, and the camera follows the target by exponential smoothing.
 */
module CameraController {

  import opened Vec
  import opened Wrappers
  import Sections

  /** The share of the remaining distance the camera covers each frame. */
  const FollowFactor: real := 0.06

  /** `t = progress * (SECTIONS.length - 1)`: progress measured in waypoint gaps. */
  function PathParameter(progress: real, n: int): (t: real)
    ensures n >= 2 && 0.0 <= progress <= 1.0 ==> 0.0 <= t <= (n - 1) as real
    ensures n >= 2 && progress == 1.0 ==> t == (n - 1) as real
    ensures n >= 2 ==> (t < 0.0 <==> progress < 0.0)
  {
    ScaleBounds(progress, (n - 1) as real);
    progress * (n - 1) as real
  }

  /** `Math.min(Math.floor(t), SECTIONS.length - 2)`: the lower waypoint of the bracketing pair. */
  function BracketIndex(progress: real, n: int): (i: int)
    ensures n >= 2 && 0.0 <= progress <= 1.0 ==> 0 <= i <= n - 2
    ensures n >= 2 && progress == 1.0 ==> i == n - 2
    ensures n >= 2 ==> (i < 0 <==> progress < 0.0)
  {
    var f := PathParameter(progress, n).Floor;
    if f <= n - 2 then f else n - 2
  }

  /** Scaling by a length `m >= 1` keeps [0, 1] inside [0, m] and keeps the sign. */
  lemma ScaleBounds(progress: real, m: real)
    ensures m >= 1.0 && 0.0 <= progress <= 1.0 ==> 0.0 <= progress * m <= m
    ensures m >= 1.0 && progress == 1.0 ==> progress * m == m
    ensures m >= 1.0 ==> (progress * m < 0.0 <==> progress < 0.0)
  {
    if m >= 1.0 {
      if progress >= 0.0 {
        NonNegProduct(progress, m);
      } else {
        NonNegProduct(-progress, m);
        assert -progress * m > 0.0;
      }
      if progress <= 1.0 {
        NonNegProduct(1.0 - progress, m);
      }
    }
  }

  /** `alpha = t - index`: how far progress has come between the two bracketing waypoints. */
  function LocalFraction(progress: real, n: int): (alpha: real)
    ensures n >= 2 && 0.0 <= progress <= 1.0 ==> 0.0 <= alpha <= 1.0
    ensures n >= 2 && progress == 1.0 ==> alpha == 1.0
  {
    PathParameter(progress, n) - BracketIndex(progress, n) as real
  }

  /** `alpha * alpha * (3 - 2 * alpha)`: smoothstep easing. */
  function Smoothstep(alpha: real): (e: real)
    ensures 0.0 <= alpha <= 1.0 ==> 0.0 <= e <= 1.0
    ensures alpha == 0.0 ==> e == 0.0
    ensures alpha == 1.0 ==> e == 1.0
  {
    SmoothstepBounds(alpha);
    alpha * alpha * (3.0 - 2.0 * alpha)
  }

  lemma SmoothstepBounds(a: real)
    ensures 0.0 <= a <= 1.0 ==> 0.0 <= a * a * (3.0 - 2.0 * a) <= 1.0
  {
    if 0.0 <= a <= 1.0 {
      NonNegProduct(a, a);
      NonNegProduct(a * a, 3.0 - 2.0 * a);
      // 1 - 3a^2 + 2a^3 = (1 - a)^2 (1 + 2a)
      assert 1.0 - a * a * (3.0 - 2.0 * a) == (1.0 - a) * (1.0 - a) * (1.0 + 2.0 * a);
      NonNegProduct(1.0 - a, 1.0 - a);
      NonNegProduct((1.0 - a) * (1.0 - a), 1.0 + 2.0 * a);
    }
  }

  /** Smoothstep never runs backwards on [0, 1], so easing keeps the camera's direction of travel. */
  lemma SmoothstepMonotone(a: real, b: real)
    requires 0.0 <= a <= b <= 1.0
    ensures Smoothstep(a) <= Smoothstep(b)
  {
    var k := 3.0 * (a + b) - 2.0 * (a * a + a * b + b * b);
    assert Smoothstep(b) - Smoothstep(a) == (b - a) * k;
    NonNegProduct(a, 1.0 - a);
    NonNegProduct(b, 1.0 - b);
    NonNegProduct(a, b);
    NonNegProduct(a, 1.0 - b);
    NonNegProduct(b, 1.0 - a);
    assert k >= 0.0;
    NonNegProduct(b - a, k);
  }

  /** Every component of `pose` lies between the matching components of the two waypoints that
      bracket `progress`. */
  predicate InBracket(progress: real, pose: Sections.CameraPose)
    requires 0.0 <= progress <= 1.0
  {
    var i := BracketIndex(progress, Sections.Count());
    var a := Sections.Catalog[i].camera;
    var b := Sections.Catalog[i + 1].camera;
    BetweenVec(pose.position, a.position, b.position) && BetweenVec(pose.lookAt, a.lookAt, b.lookAt)
  }

  /** The target pose for a frame: the waypoints' positions and look-at points lerped with the eased
      fraction.  None where the source would read a waypoint before the first one and throw
      (`SECTIONS[index]` undefined when progress is negative). */
  function TargetPose(progress: real): (r: Option<Sections.CameraPose>)
    ensures r.None? <==> progress < 0.0
    ensures 0.0 <= progress <= 1.0 ==> r.Some? && InBracket(progress, r.value)
  {
    var n := Sections.Count();
    var i := BracketIndex(progress, n);
    if i < 0 then None
    else
      var e := Smoothstep(LocalFraction(progress, n));
      var a := Sections.Catalog[i].camera;
      var b := Sections.Catalog[i + 1].camera;
      Some(Sections.CameraPose(LerpVec(a.position, b.position, e), LerpVec(a.lookAt, b.lookAt, e)))
  }

  /** Smoothstep is never steeper than 1.5, its slope at alpha = 1/2. */
  lemma SmoothstepLipschitz(a: real, b: real)
    requires 0.0 <= a <= b <= 1.0
    ensures 0.0 <= Smoothstep(b) - Smoothstep(a) <= 1.5 * (b - a)
  {
    SmoothstepMonotone(a, b);
    SmoothstepPolyLipschitz(a, b);
  }

  /** The polynomial of `Smoothstep` rises by at most 1.5 (b − a) from a to b: its difference is
      (b − a) k, and 1.5 − k = (b − a)²/2 + 3(a + b − 1)²/2. */
  lemma SmoothstepPolyLipschitz(a: real, b: real)
    requires 0.0 <= a <= b <= 1.0
    ensures b * b * (3.0 - 2.0 * b) - a * a * (3.0 - 2.0 * a) <= 1.5 * (b - a)
  {
    var k := 3.0 * (a + b) - 2.0 * (a * a + a * b + b * b);
    assert b * b * (3.0 - 2.0 * b) - a * a * (3.0 - 2.0 * a) == (b - a) * k;
    assert 1.5 - k == 0.5 * (b - a) * (b - a) + 1.5 * (a + b - 1.0) * (a + b - 1.0);
    NonNegProduct(b - a, b - a);
    if a + b >= 1.0 {
      NonNegProduct(a + b - 1.0, a + b - 1.0);
    } else {
      NonNegProduct(1.0 - a - b, 1.0 - a - b);
    }
    NonNegProduct(b - a, 1.5 - k);
  }

  /** One of the six numbers of a camera pose. */
  datatype Axis = PositionX | PositionY | PositionZ | LookAtX | LookAtY | LookAtZ

  function Coord(pose: Sections.CameraPose, axis: Axis): real {
    match axis
    case PositionX => pose.position.x
    case PositionY => pose.position.y
    case PositionZ => pose.position.z
    case LookAtX => pose.lookAt.x
    case LookAtY => pose.lookAt.y
    case LookAtZ => pose.lookAt.z
  }

  /** Waypoint `j`'s value on `axis`. */
  function Waypoint(axis: Axis, j: int): real
    requires 0 <= j < |Sections.Catalog|
  {
    Coord(Sections.Catalog[j].camera, axis)
  }

  /** How far `axis` moves from waypoint `j` to waypoint `j + 1`. */
  function Step(axis: Axis, j: int): real
    requires 0 <= j < |Sections.Catalog| - 1
  {
    Waypoint(axis, j + 1) - Waypoint(axis, j)
  }

  /** No two neighbouring waypoints are more than `g` apart on `axis`. */
  predicate GapsBoundedBy(axis: Axis, g: real) {
    forall j :: 0 <= j < |Sections.Catalog| - 1 ==> Abs(Step(axis, j)) <= g
  }

  /** The target's value on `axis` at `progress`. */
  function Component(axis: Axis, progress: real): real
    requires 0.0 <= progress <= 1.0
  {
    Coord(TargetPose(progress).value, axis)
  }

  /** Segment `i` of the path, the eased lerp from waypoint `i` to waypoint `i + 1`, evaluated at
      `progress` (which is in that segment when `i <= 4 * progress <= i + 1`). */
  function Segment(axis: Axis, i: int, progress: real): real
    requires 0 <= i < |Sections.Catalog| - 1
  {
    Lerp(Waypoint(axis, i), Waypoint(axis, i + 1), Smoothstep(4.0 * progress - i as real))
  }

  /** On the closed stretch of progress that belongs to segment `i`, the target is that segment,
      including its right end, where the source already uses segment `i + 1` at alpha 0: the two
      segments meet there, at waypoint `i + 1`. */
  lemma SegmentCovers(axis: Axis, i: int, progress: real)
    requires 0 <= i < |Sections.Catalog| - 1
    requires i as real <= 4.0 * progress <= (i + 1) as real
    ensures Component(axis, progress) == Segment(axis, i, progress)
  {
    var n := Sections.Count();
    assert n == 5;
    var t := PathParameter(progress, n);
    assert t == 4.0 * progress;
    if 4.0 * progress < (i + 1) as real {
      assert t.Floor == i;
      assert BracketIndex(progress, n) == i;
    } else if i == n - 2 {
      assert t.Floor == n - 1;
      assert BracketIndex(progress, n) == i;
    } else {
      assert t.Floor == i + 1;
      assert BracketIndex(progress, n) == i + 1;
      assert LocalFraction(progress, n) == 0.0;
      assert Smoothstep(4.0 * progress - i as real) == 1.0;
    }
  }

  /** At an inner waypoint boundary the segment that ends there and the segment that starts
      there give the same value, the pose of that waypoint: the target does not jump. */
  lemma SegmentsMeet(axis: Axis, k: int)
    requires 1 <= k < |Sections.Catalog| - 1
    ensures Segment(axis, k - 1, k as real / 4.0) == Waypoint(axis, k)
    ensures Segment(axis, k, k as real / 4.0) == Waypoint(axis, k)
  {
    assert 4.0 * (k as real / 4.0) - (k - 1) as real == 1.0;
    assert 4.0 * (k as real / 4.0) - k as real == 0.0;
  }

  /** Inside one segment the target moves by at most 1.5 (smoothstep's slope) times 4 (gaps per
      unit of progress) times the gap between its two waypoints. */
  lemma SegmentLipschitz(axis: Axis, i: int, p: real, q: real, g: real)
    requires 0 <= i < |Sections.Catalog| - 1
    requires i as real <= 4.0 * p <= 4.0 * q <= (i + 1) as real
    requires GapsBoundedBy(axis, g)
    ensures Abs(Segment(axis, i, q) - Segment(axis, i, p)) <= 6.0 * g * (q - p)
  {
    var a, b := 4.0 * p - i as real, 4.0 * q - i as real;
    SmoothstepLipschitz(a, b);
    assert Abs(Step(axis, i)) <= g;
    LerpBound(Waypoint(axis, i), Waypoint(axis, i + 1), Smoothstep(a), Smoothstep(b), g, p, q);
    assert Segment(axis, i, q) == Lerp(Waypoint(axis, i), Waypoint(axis, i + 1), Smoothstep(b));
    assert Segment(axis, i, p) == Lerp(Waypoint(axis, i), Waypoint(axis, i + 1), Smoothstep(a));
  }

  /** Two lerps between end points at most `g` apart, whose fractions differ by at most
      6 (q − p), are at most 6 g (q − p) apart. */
  lemma LerpBound(w0: real, w1: real, sa: real, sb: real, g: real, p: real, q: real)
    requires 0.0 <= sb - sa <= 6.0 * (q - p) && Abs(w1 - w0) <= g
    ensures Abs(Lerp(w0, w1, sb) - Lerp(w0, w1, sa)) <= 6.0 * g * (q - p)
  {
    assert Lerp(w0, w1, sb) - w0 == sb * (w1 - w0);
    assert Lerp(w0, w1, sa) - w0 == sa * (w1 - w0);
    assert Lerp(w0, w1, sb) - Lerp(w0, w1, sa) == (sb - sa) * (w1 - w0);
    ScaledGap(sb - sa, w1 - w0, g, 6.0 * (q - p));
    assert 6.0 * (q - p) * g == 6.0 * g * (q - p);
  }

  /** A share `d` of at most `bound` of a gap at most `g` in size is at most `bound * g` in size. */
  lemma ScaledGap(d: real, gap: real, g: real, bound: real)
    requires 0.0 <= d <= bound && Abs(gap) <= g
    ensures Abs(d * gap) <= bound * g
  {
    if gap < 0.0 {
      NonNegProduct(d, -gap);
      assert Abs(d * gap) == d * -gap;
    } else {
      NonNegProduct(d, gap);
    }
    NonNegProduct(d, g - Abs(gap));
    NonNegProduct(bound - d, g);
  }

  /** Along the whole path the target moves by at most 6 g per unit of progress: split [p, q] at
      each waypoint boundary it crosses and add up the bounds of the segments. */
  lemma {:induction false} ComponentLipschitz(axis: Axis, p: real, q: real, g: real)
    requires 0.0 <= p <= q <= 1.0
    requires GapsBoundedBy(axis, g)
    ensures Abs(Component(axis, q) - Component(axis, p)) <= 6.0 * g * (q - p)
    decreases Sections.Count() - 2 - BracketIndex(p, Sections.Count())
  {
    var n := Sections.Count();
    assert n == 5;
    var i := BracketIndex(p, n);
    assert PathParameter(p, n) == 4.0 * p;
    assert i as real <= 4.0 * p <= (i + 1) as real;
    SegmentCovers(axis, i, p);
    if 4.0 * q <= (i + 1) as real {
      SegmentCovers(axis, i, q);
      SegmentLipschitz(axis, i, p, q, g);
    } else {
      var m := (i + 1) as real / 4.0;
      SegmentCovers(axis, i, m);
      SegmentLipschitz(axis, i, p, m, g);
      assert PathParameter(m, n) == (i + 1) as real;
      assert BracketIndex(m, n) == i + 1;
      ComponentLipschitz(axis, m, q, g);
      Chain(Component(axis, p), Component(axis, m), Component(axis, q), g, p, m, q);
    }
  }

  /** Two bounded hops, over [p, m] and over [m, q], add up to a bounded hop over [p, q]. */
  lemma Chain(x: real, y: real, z: real, g: real, p: real, m: real, q: real)
    requires Abs(y - x) <= 6.0 * g * (m - p) && Abs(z - y) <= 6.0 * g * (q - m)
    ensures Abs(z - x) <= 6.0 * g * (q - p)
  {
    assert 6.0 * g * (m - p) + 6.0 * g * (q - m) == 6.0 * g * (q - p);
  }

  /** The target pose never jumps: on every axis it is Lipschitz in progress, with constant 6·g
      for a bound g on the neighbouring waypoints' distance on that axis.  So the target has no
      jump at a waypoint boundary, where the bracketing pair changes. */
  lemma TargetPoseLipschitz(axis: Axis, p: real, q: real, g: real)
    requires 0.0 <= p <= 1.0 && 0.0 <= q <= 1.0
    requires GapsBoundedBy(axis, g)
    ensures Abs(Coord(TargetPose(q).value, axis) - Coord(TargetPose(p).value, axis)) <= 6.0 * g * Abs(q - p)
  {
    var x, y := Coord(TargetPose(p).value, axis), Coord(TargetPose(q).value, axis);
    assert Component(axis, p) == x && Component(axis, q) == y;
    if p <= q {
      ComponentLipschitz(axis, p, q, g);
    } else {
      ComponentLipschitz(axis, q, p, g);
    }
    EitherOrder(x, y, g, p, q);
  }

  /** A bound stated for the ordered pair of progress values holds for either order. */
  lemma EitherOrder(x: real, y: real, g: real, p: real, q: real)
    requires p <= q ==> Abs(y - x) <= 6.0 * g * (q - p)
    requires q < p ==> Abs(x - y) <= 6.0 * g * (p - q)
    ensures Abs(y - x) <= 6.0 * g * Abs(q - p)
  {
  }

  /** On every axis, neighbouring waypoints of the catalog are at most 16 apart (the largest is
      the x of the position from 'about' to 'skills'), so by `TargetPoseLipschitz` no number of
      the target pose moves by more than 96 per unit of progress. */
  lemma CatalogGaps(axis: Axis)
    ensures GapsBoundedBy(axis, 16.0)
  {
    forall j | 0 <= j < |Sections.Catalog| - 1
      ensures Abs(Step(axis, j)) <= 16.0
    {
      assert 0 <= j < 4;
    }
  }

  /** At the progress that `goToSection(k)` sets, the target is exactly waypoint `k`'s pose; at
      progress 1 the index is pinned to the last gap and the target is the last waypoint. */
  lemma {:induction false} TargetAtWaypoint(k: int)
    requires 0 <= k < Sections.Count()
    ensures TargetPose(k as real / (Sections.Count() - 1) as real) == Some(Sections.Catalog[k].camera)
  {
    var n := Sections.Count();
    var p := k as real / (n - 1) as real;
    assert PathParameter(p, n) == k as real;
    assert PathParameter(p, n).Floor == k;
    if k < n - 1 {
      assert BracketIndex(p, n) == k;
      assert LocalFraction(p, n) == 0.0;
    } else {
      assert BracketIndex(p, n) == n - 2;
      assert LocalFraction(p, n) == 1.0;
    }
  }

  /** With five waypoints and progress 0.6: index 2, fraction 0.4, eased 0.352, and the target
      35.2% of the way from the 'skills' waypoint to the 'projects' one. */
  lemma SixTenths()
    ensures BracketIndex(0.6, Sections.Count()) == 2
    ensures LocalFraction(0.6, Sections.Count()) == 0.4
    ensures Smoothstep(0.4) == 0.352
    ensures TargetPose(0.6) == Some(Sections.CameraPose(Vec3(-3.888, 6.76, 9.296), Vec3(0.0, 6.76, 0.0)))
  {
    assert PathParameter(0.6, 5) == 2.4;
    assert PathParameter(0.6, 5).Floor == 2;
  }

  /** One smoothing step with the 0.06 factor: every component's distance to the target becomes
      0.94 of what it was, the camera does not pass the target, and a camera on the target stays. */
  lemma FollowStep(cur: Vec3, target: Vec3)
    ensures Gap(Follow(cur, target, FollowFactor), target) == Scale(0.94, Gap(cur, target))
    ensures BetweenVec(Follow(cur, target, FollowFactor), cur, target)
    ensures Follow(target, target, FollowFactor) == target
  {
    FollowContracts(cur, target, FollowFactor);
  }

  /** The frame loop's state: `camera.position`, the smoothed look-at point `currentLookAt` and the
      last targets written into the `targetPosition` and `targetLookAt` refs. */
  class Camera {
    var position: Vec3
    var lookAt: Vec3
    var targetPosition: Vec3
    var targetLookAt: Vec3

    constructor (position0: Vec3)
      ensures position == position0
      ensures lookAt == Vec3(0.0, 0.0, 0.0) && targetPosition == lookAt && targetLookAt == lookAt
    {
      position := position0;
      lookAt := Vec3(0.0, 0.0, 0.0);
      targetPosition := Vec3(0.0, 0.0, 0.0);
      targetLookAt := Vec3(0.0, 0.0, 0.0);
    }

    /** One rendered frame.  `ok` is false where the source throws before writing anything. */
    method Frame(progress: real) returns (ok: bool)
      modifies this
      ensures ok <==> progress >= 0.0
      ensures ok ==> targetPosition == TargetPose(progress).value.position
      ensures ok ==> targetLookAt == TargetPose(progress).value.lookAt
      ensures ok ==> position == Follow(old(position), targetPosition, FollowFactor)
      ensures ok ==> lookAt == Follow(old(lookAt), targetLookAt, FollowFactor)
      ensures ok ==> Gap(position, targetPosition) == Scale(0.94, Gap(old(position), targetPosition))
      ensures ok ==> Gap(lookAt, targetLookAt) == Scale(0.94, Gap(old(lookAt), targetLookAt))
      ensures !ok ==> position == old(position) && lookAt == old(lookAt)
      ensures !ok ==> targetPosition == old(targetPosition) && targetLookAt == old(targetLookAt)
    {
      var pose := TargetPose(progress);
      match pose
      case None =>
        ok := false;
      case Some(p) =>
        ok := true;
        targetPosition := p.position;
        targetLookAt := p.lookAt;
        FollowStep(position, targetPosition);
        FollowStep(lookAt, targetLookAt);
        position := Follow(position, targetPosition, FollowFactor);
        lookAt := Follow(lookAt, targetLookAt, FollowFactor);
    }
  }
}
