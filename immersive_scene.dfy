/**
 * The camera rig that the `/immersive` route renders (`ImmersiveScene` with its `CameraRig`):
 * touch drags are tracked in waypoint units, scroll as a fraction of the scroll range, the
 * target is a linear (un-eased) lerp along a six-point path, and the camera follows it with
 * factor 0.1.  The page also derives the highlighted label of its five-label side list.
 */
module ImmersiveScene {

  import opened Vec
  import opened Wrappers
  import Viewport

  /** `cameraPath`: About, Skills, Experience, Projects, Contact, Outro. */
  const CameraPath: seq<Vec3> := [
    Vec3(0.0, 0.0, 20.0),
    Vec3(0.0, 2.0, 14.0),
    Vec3(4.0, 8.0, 11.0),
    Vec3(-3.0, 18.0, 13.0),
    Vec3(12.0, 15.0, 9.0),
    Vec3(0.0, 25.0, 15.0)
  ]

  /** The side list's labels, matched against the highlighted section by position. */
  const Labels: seq<string> := ["About", "Skills", "Experience", "Projects", "Contact"]

  /** A drag of this many pixels moves the rig by one waypoint. */
  const PixelsPerWaypoint: real := 280.0

  const FollowFactor: real := 0.1

  /** Where the camera starts (`<PerspectiveCamera position={[0, 0, 20]}>`). */
  const StartPosition: Vec3 := Vec3(0.0, 0.0, 20.0)

  /** The last position on the path, `cameraPath.length - 1`, in waypoint units: the sixth
      waypoint, the label-less outro. */
  function LastWaypoint(): (t: real)
    ensures t == 5.0
  {
    (|CameraPath| - 1) as real
  }

  /** The path has six waypoints but the side list only five labels. */
  lemma PathOutnumbersLabels()
    ensures |CameraPath| == 6 && |Labels| == 5
  {
  }

  /** `max > 0 ? window.scrollY / max : 0`: the scroll fraction, never a division by zero and not
      clamped above. */
  function ScrollFraction(m: Viewport.ScrollMetrics): (r: real)
    ensures m.Range() <= 0.0 ==> r == 0.0
    ensures m.Range() > 0.0 ==> r * m.Range() == m.scrollY
    ensures m.Range() > 0.0 && 0.0 <= m.scrollY <= m.Range() ==> 0.0 <= r <= 1.0
    ensures m.Range() > 0.0 && m.scrollY > m.Range() ==> r > 1.0
  {
    if m.Range() > 0.0 then Vec.Quotient(m.scrollY, m.Range()); m.scrollY / m.Range() else 0.0
  }

  /** A touch move from `startY` to `y`: the drag in waypoint units added to the touch progress,
      clamped to the path. */
  function TouchStep(touchProgress: real, startY: real, y: real): (r: real)
    ensures 0.0 <= r <= LastWaypoint()
    ensures 0.0 <= touchProgress + (startY - y) / PixelsPerWaypoint <= LastWaypoint() ==>
      r == touchProgress + (startY - y) / PixelsPerWaypoint
  {
    Clamp(touchProgress + (startY - y) / PixelsPerWaypoint, 0.0, LastWaypoint())
  }

  /** The frame's path parameter: touch progress on mobile, the scroll fraction scaled to the path on
      desktop. */
  function PathParameter(isMobile: bool, touchProgress: real, scrollProgress: real): (t: real)
    ensures isMobile ==> t == touchProgress
    ensures !isMobile && 0.0 <= scrollProgress <= 1.0 ==> 0.0 <= t <= LastWaypoint()
    ensures !isMobile && scrollProgress == 1.0 ==> t == LastWaypoint()
  {
    if isMobile then touchProgress else scrollProgress * LastWaypoint()
  }

  /** `next = Math.min(index + 1, cameraPath.length - 1)`. */
  function NextIndex(index: int): (next: int)
    ensures 0 <= index < |CameraPath| - 1 ==> next == index + 1
    ensures 0 <= index ==> next < |CameraPath|
    ensures index >= |CameraPath| - 1 ==> next == |CameraPath| - 1
  {
    if index + 1 <= |CameraPath| - 1 then index + 1 else |CameraPath| - 1
  }

  /** The frame's target: `cameraPath[index]` and `cameraPath[next]` lerped componentwise with
      `alpha = t - index`, no easing.  None where `cameraPath[index]` is undefined and the source
      throws: before the path, or a whole waypoint or more past its end. */
  function RigTarget(t: real): (r: Option<Vec3>)
    ensures r.Some? <==> 0.0 <= t < |CameraPath| as real
    ensures 0.0 <= t <= LastWaypoint() ==>
      r.Some? && BetweenVec(r.value, CameraPath[t.Floor], CameraPath[NextIndex(t.Floor)])
  {
    var index := t.Floor;
    if index < 0 || index >= |CameraPath| then None
    else
      var alpha := t - index as real;
      var a := CameraPath[index];
      var b := CameraPath[NextIndex(index)];
      Some(LerpVec(a, b, alpha))
  }

  /** For a parameter on the path both indices are valid; at the end of the path both name the last
      waypoint and the fraction is 0. */
  lemma RigIndices(t: real)
    requires 0.0 <= t <= LastWaypoint()
    ensures 0 <= t.Floor <= NextIndex(t.Floor) < |CameraPath|
    ensures 0.0 <= t - t.Floor as real < 1.0
    ensures t == LastWaypoint() ==> t.Floor == NextIndex(t.Floor) == |CameraPath| - 1 && t - t.Floor as real == 0.0
  {
  }

  /** With the parameter on waypoint `k` the target is waypoint `k`. */
  lemma RigAtWaypoint(k: int)
    requires 0 <= k < |CameraPath|
    ensures RigTarget(k as real) == Some(CameraPath[k])
  {
    assert (k as real).Floor == k;
  }

  /** A desktop scroll reading more than 1.2 of the scroll range (or below 0) puts the parameter a
      whole waypoint past the end of the path, where the frame finds no waypoint. */
  lemma ScrollPastPathHasNoTarget(s: real)
    requires s >= 1.2 || s < 0.0
    ensures RigTarget(PathParameter(false, 0.0, s)).None?
  {
  }

  /** `Math.floor(scrollProgress * 5)` as written: the highlighted label. */
  function LabelIndexAsWritten(scrollProgress: real): (i: int)
    ensures 0.0 <= scrollProgress < 1.0 ==> 0 <= i < |Labels|
    ensures scrollProgress == 1.0 ==> i == |Labels|
    ensures scrollProgress > 1.0 ==> i >= |Labels|
  {
    (scrollProgress * 5.0).Floor
  }

  /** The labels highlighted for a section index: those whose position equals it. */
  function Highlighted(section: int): (r: seq<string>)
    ensures 0 <= section < |Labels| ==> r == [Labels[section]]
    ensures (section < 0 || section >= |Labels|) ==> r == []
  {
    HighlightedFrom(section, 0)
  }

  function HighlightedFrom(section: int, from: nat): (r: seq<string>)
    requires from <= |Labels|
    ensures from <= section < |Labels| ==> r == [Labels[section]]
    ensures (section < from || section >= |Labels|) ==> r == []
    decreases |Labels| - from
  {
    if from == |Labels| then []
    else (if section == from then [Labels[from]] else []) + HighlightedFrom(section, from + 1)
  }

  /** Scrolled to the very bottom, the formula as written gives 5 and no label is highlighted. */
  lemma BottomHighlightsNoLabel()
    ensures LabelIndexAsWritten(1.0) == 5
    ensures Highlighted(LabelIndexAsWritten(1.0)) == []
  {
  }

  /** The highlighted label with the last one kept lit at the bottom of the page:
      `Math.min(Math.floor(scrollProgress * 5), 4)`. */
  function LabelIndex(scrollProgress: real): (i: int)
    ensures 0.0 <= scrollProgress <= 1.0 ==> 0 <= i < |Labels|
    ensures 0.0 <= scrollProgress < 1.0 ==> i == LabelIndexAsWritten(scrollProgress)
    ensures scrollProgress == 1.0 ==> i == |Labels| - 1
  {
    var raw := LabelIndexAsWritten(scrollProgress);
    if raw <= 4 then raw else 4
  }

  /** On the whole scroll range exactly one label is highlighted. */
  lemma OneLabelHighlighted(scrollProgress: real)
    requires 0.0 <= scrollProgress <= 1.0
    ensures |Highlighted(LabelIndex(scrollProgress))| == 1
  {
  }

  /** The page's state: the device class, the UI's scroll progress, the rig's scroll and touch
      refs, the touch handler's last Y and the camera position. */
  class Scene {
    var isMobile: bool
    var uiScrollProgress: real
    var scrollProgress: real
    var touchProgress: real
    var startY: real
    var position: Vec3

    /** The touch progress stays on the path. */
    predicate Valid()
      reads this
    {
      0.0 <= touchProgress <= LastWaypoint()
    }

    /** The target of the next frame, from whichever input the device class selects. */
    function FrameTarget(): (r: Option<Vec3>)
      reads this
      ensures isMobile && Valid() ==> r.Some?
    {
      RigTarget(PathParameter(isMobile, touchProgress, scrollProgress))
    }

    /** The highlighted label's index, as line 230 computes it: a label index above the top of
        the page's last fifth, one past the list at the very bottom. */
    function CurrentSection(): (i: int)
      reads this
      ensures 0.0 <= uiScrollProgress < 1.0 ==> 0 <= i < |Labels| && |Highlighted(i)| == 1
      ensures uiScrollProgress == 1.0 ==> i == |Labels| && Highlighted(i) == []
    {
      LabelIndexAsWritten(uiScrollProgress)
    }

    /** Mounting: both scroll handlers read the scroll position once (the rig's while `isMobile` is
        still false), and the device check runs. */
    constructor (innerWidth: real, m: Viewport.ScrollMetrics)
      ensures Valid()
      ensures isMobile == Viewport.IsMobileWidth(innerWidth)
      ensures uiScrollProgress == ScrollFraction(m) && scrollProgress == ScrollFraction(m)
      ensures touchProgress == 0.0 && startY == 0.0 && position == StartPosition
    {
      isMobile := Viewport.IsMobileWidth(innerWidth);
      uiScrollProgress := ScrollFraction(m);
      scrollProgress := ScrollFraction(m);
      touchProgress := 0.0;
      startY := 0.0;
      position := StartPosition;
    }

    /** A resize.  When the device class changes the rig's input effect is re-run: becoming mobile
        starts a fresh touch handler whose last Y is 0, becoming desktop re-reads the scroll. */
    method Resize(innerWidth: real, m: Viewport.ScrollMetrics)
      requires Valid()
      modifies this
      ensures Valid()
      ensures isMobile == Viewport.IsMobileWidth(innerWidth)
      ensures old(isMobile) != isMobile && isMobile ==> startY == 0.0
      ensures old(isMobile) != isMobile && !isMobile ==> scrollProgress == ScrollFraction(m)
      ensures old(isMobile) == isMobile ==> startY == old(startY) && scrollProgress == old(scrollProgress)
      ensures old(isMobile) != isMobile && isMobile ==> scrollProgress == old(scrollProgress)
      ensures old(isMobile) != isMobile && !isMobile ==> startY == old(startY)
      ensures touchProgress == old(touchProgress) && uiScrollProgress == old(uiScrollProgress)
      ensures position == old(position)
    {
      var mobile := Viewport.IsMobileWidth(innerWidth);
      if mobile != isMobile {
        isMobile := mobile;
        if mobile {
          startY := 0.0;
        } else {
          scrollProgress := ScrollFraction(m);
        }
      }
    }

    /** A scroll event: the UI always listens, the rig only on desktop. */
    method Scroll(m: Viewport.ScrollMetrics)
      modifies this`uiScrollProgress, this`scrollProgress
      ensures uiScrollProgress == ScrollFraction(m)
      ensures scrollProgress == if isMobile then old(scrollProgress) else ScrollFraction(m)
    {
      uiScrollProgress := ScrollFraction(m);
      if !isMobile {
        scrollProgress := ScrollFraction(m);
      }
    }

    /** A touch start (mobile only): remembers where the finger is. */
    method TouchStart(y: real)
      modifies this`startY
      ensures startY == if isMobile then y else old(startY)
    {
      if isMobile {
        startY := y;
      }
    }

    /** A touch move (mobile only): the drag since the last event moves the touch progress, and the
        finger's position becomes the new baseline. */
    method TouchMove(y: real)
      requires Valid()
      modifies this`touchProgress, this`startY
      ensures Valid()
      ensures isMobile ==> touchProgress == TouchStep(old(touchProgress), old(startY), y) && startY == y
      ensures !isMobile ==> touchProgress == old(touchProgress) && startY == old(startY)
    {
      if isMobile {
        touchProgress := TouchStep(touchProgress, startY, y);
        startY := y;
      }
    }

    /** One rendered frame: the camera moves a tenth of the way to the path target.  `ok` is false
        where the source throws on an undefined waypoint; on mobile that never happens. */
    method Frame() returns (ok: bool)
      requires Valid()
      modifies this`position
      ensures isMobile ==> ok
      ensures ok <==> FrameTarget().Some?
      ensures ok ==> position == Follow(old(position), FrameTarget().value, FollowFactor)
      ensures !ok ==> position == old(position)
    {
      match FrameTarget()
      case None =>
        ok := false;
      case Some(target) =>
        ok := true;
        position := Follow(position, target, FollowFactor);
    }
  }
}
