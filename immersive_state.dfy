/**
 * The refactored input pipeline (`useImmersiveState`): desktop scroll and mobile touch drags
 * become one `progress` value, from which the highlighted section is derived and to which
 * `goToSection` jumps.  Window readings are parameters of the handlers.
 */
module ImmersiveState {

  import opened Wrappers
  import Sections
  import Viewport
  import Vec

  /** Progress gained per pixel of upward drag. */
  const TouchSensitivity: real := 0.0015

  /** The progress the scroll handler writes, or None when the scroll range is not positive and
      the handler writes nothing. */
  function ScrollProgress(m: Viewport.ScrollMetrics): (r: Option<real>)
    ensures r.None? <==> m.Range() <= 0.0
    ensures r.Some? ==> 0.0 <= r.value <= 1.0
    ensures r.Some? && m.scrollY >= m.Range() ==> r.value == 1.0
    ensures r.Some? && m.scrollY <= 0.0 ==> r.value == 0.0
    ensures r.Some? && 0.0 <= m.scrollY <= m.Range() ==> r.value * m.Range() == m.scrollY
  {
    var range := m.Range();
    if range > 0.0 then
      var ratio := m.scrollY / range;
      Vec.Quotient(m.scrollY, range);
      Some(Vec.Clamp(ratio, 0.0, 1.0))
    else None
  }

  /** The progress after one touch move from `startY` to `y`: the progress at the previous
      event plus the drag scaled by the sensitivity, clamped to [0, 1]. */
  function TouchMoveProgress(current: real, startY: real, y: real): (r: real)
    ensures 0.0 <= r <= 1.0
    ensures 0.0 <= current + (startY - y) * TouchSensitivity <= 1.0 ==>
      r == current + (startY - y) * TouchSensitivity
    ensures y == startY && 0.0 <= current <= 1.0 ==> r == current
  {
    Vec.Clamp(current + (startY - y) * TouchSensitivity, 0.0, 1.0)
  }

  /** A drag of `startY - y` pixels followed by the opposite drag back to `startY` returns
      progress to where it started, as long as the first move hit no clamp. */
  lemma DragThereAndBack(p: real, startY: real, y: real)
    requires 0.0 <= p <= 1.0
    requires 0.0 <= p + (startY - y) * TouchSensitivity <= 1.0
    ensures TouchMoveProgress(TouchMoveProgress(p, startY, y), y, startY) == p
  {
    var p1 := TouchMoveProgress(p, startY, y);
    assert p1 + (y - startY) * TouchSensitivity == p;
  }

  /** `Math.min(Math.floor(progress * n), n - 1)`: the highlighted section.  It never passes the
      last section, is never negative for non-negative progress, and is the last section at the
      bottom of the page and beyond. */
  function SectionOf(progress: real, n: int): (s: int)
    ensures s <= n - 1
    ensures n >= 1 && progress >= 0.0 ==> s >= 0
    ensures n >= 1 && progress >= 1.0 ==> s == n - 1
  {
    ScaledAtLeast(progress, n);
    var s := (progress * n as real).Floor;
    if s <= n - 1 then s else n - 1
  }

  /** Multiplying non-negative progress by a count keeps it non-negative, and progress of one or
      more by a count gives at least that count. */
  lemma ScaledAtLeast(progress: real, n: int)
    ensures n >= 1 && progress >= 0.0 ==> progress * n as real >= 0.0
    ensures n >= 1 && progress >= 1.0 ==> progress * n as real >= n as real
  {
    if n >= 1 && progress >= 0.0 {
      Vec.NonNegProduct(progress, n as real);
      if progress >= 1.0 {
        Vec.NonNegProduct(progress - 1.0, n as real);
      }
    }
  }

  /** For progress in [0, 1] the highlighted section is a valid index. */
  lemma SectionOfInRange(progress: real, n: int)
    requires 0.0 <= progress <= 1.0 && n >= 1
    ensures 0 <= SectionOf(progress, n) < n
  {
    assert 0.0 <= progress * n as real;
  }

  lemma SectionOfInRangeWhen(progress: real)
    ensures 0.0 <= progress <= 1.0 ==> 0 <= SectionOf(progress, Sections.Count()) < Sections.Count()
  {
    if 0.0 <= progress <= 1.0 {
      SectionOfInRange(progress, Sections.Count());
    }
  }

  /** `index / (SECTIONS.length - 1)`: the progress `goToSection` aims at.  The index is not
      clamped. */
  function TargetProgress(index: int, n: int): (p: real)
    requires n >= 2
    ensures p * (n - 1) as real == index as real
    ensures 0 <= index <= n - 1 <==> 0.0 <= p <= 1.0
    ensures index < 0 ==> p < 0.0
    ensures index > n - 1 ==> p > 1.0
  {
    index as real / (n - 1) as real
  }

  lemma FloorIs(x: real, k: int)
    requires k as real <= x < k as real + 1.0
    ensures x.Floor == k
  {
  }

  /** Jumping to section `i` and deriving the section from the new progress gives back `i`. */
  lemma {:induction false} GoToSectionRoundTrip(i: int, n: int)
    requires n >= 2 && 0 <= i < n
    ensures SectionOf(TargetProgress(i, n), n) == i
  {
    var p := TargetProgress(i, n);
    assert p * n as real == i as real + p;
    if i < n - 1 {
      assert p < 1.0;
      FloorIs(p * n as real, i);
    } else {
      assert p == (n - 1) as real / (n - 1) as real == 1.0;
    }
  }

  /** On desktop, the scroll that `goToSection` requests brings the scroll handler to the jump's
      target progress, and so to the requested section. */
  lemma {:induction false} DesktopGoToSectionRoundTrip(i: int, m: Viewport.ScrollMetrics)
    requires 0 <= i < Sections.Count()
    requires m.Range() > 0.0
    ensures ScrollProgress(m.(scrollY := ScrollTarget(i, m))) == Some(TargetProgress(i, Sections.Count()))
    ensures SectionOf(TargetProgress(i, Sections.Count()), Sections.Count()) == i
  {
    var n := Sections.Count();
    var p := TargetProgress(i, n);
    var m' := m.(scrollY := ScrollTarget(i, m));
    assert m'.Range() == m.Range();
    assert m'.scrollY / m'.Range() == p;
    GoToSectionRoundTrip(i, n);
  }

  /** `scrollHeight * targetProgress`: where the desktop `goToSection` asks the window to scroll. */
  function ScrollTarget(index: int, m: Viewport.ScrollMetrics): (top: real)
    ensures m.Range() > 0.0 && 0 <= index < Sections.Count() ==> 0.0 <= top <= m.Range()
  {
    var p := TargetProgress(index, Sections.Count());
    Vec.FractionBetween(p, m.Range());
    m.Range() * p
  }

  /** The hook's state: the React state `progress`, `isMobile` and `isLoaded`, and the touch ref
      that remembers the last touch position and the progress at that moment. */
  class ProgressState {
    var progress: real
    var isMobile: bool
    var isLoaded: bool
    var touchStartY: real
    var touchProgress: real

    /** Progress and the touch baseline lie in [0, 1].  Every handler keeps this; only a
        `goToSection` with an index outside the catalog breaks it. */
    predicate InRange()
      reads this
    {
      0.0 <= progress <= 1.0 && 0.0 <= touchProgress <= 1.0
    }

    /** `currentSection`, derived from progress on every render. */
    function CurrentSection(): (s: int)
      reads this
      ensures InRange() ==> 0 <= s < Sections.Count()
    {
      SectionOfInRangeWhen(progress);
      SectionOf(progress, Sections.Count())
    }

    /** Mounting: the initial state, the first device check, and the first scroll read, which
        runs while `isMobile` still has its initial value false. */
    constructor (innerWidth: real, m: Viewport.ScrollMetrics)
      ensures isMobile == Viewport.IsMobileWidth(innerWidth)
      ensures progress == ScrollProgress(m).GetOr(0.0)
      ensures !isLoaded && touchStartY == 0.0 && touchProgress == 0.0
      ensures InRange()
    {
      progress := ScrollProgress(m).GetOr(0.0);
      isMobile := Viewport.IsMobileWidth(innerWidth);
      isLoaded := false;
      touchStartY := 0.0;
      touchProgress := 0.0;
    }

    /** A resize: the device class is re-checked.  Becoming mobile keeps progress; becoming
        desktop installs the scroll handler, which reads progress from the scroll position at once. */
    method Resize(innerWidth: real, m: Viewport.ScrollMetrics)
      modifies this
      ensures isMobile == Viewport.IsMobileWidth(innerWidth)
      ensures progress == if old(isMobile) && !isMobile then ScrollProgress(m).GetOr(old(progress)) else old(progress)
      ensures isLoaded == old(isLoaded) && touchStartY == old(touchStartY) && touchProgress == old(touchProgress)
      ensures old(InRange()) ==> InRange()
    {
      var mobile := Viewport.IsMobileWidth(innerWidth);
      if mobile != isMobile {
        isMobile := mobile;
        if !mobile {
          progress := ScrollProgress(m).GetOr(progress);
        }
      }
    }

    /** A scroll event.  Only the desktop handler listens; a scroll range that is not positive
        leaves progress as it was. */
    method Scroll(m: Viewport.ScrollMetrics)
      modifies this`progress
      ensures progress == if isMobile then old(progress) else ScrollProgress(m).GetOr(old(progress))
      ensures !isMobile && m.Range() > 0.0 ==> 0.0 <= progress <= 1.0
      ensures old(InRange()) ==> InRange()
    {
      if !isMobile {
        match ScrollProgress(m)
        case Some(p) => progress := p;
        case None =>
      }
    }

    /** A touch start at height `y` (mobile only): the gesture starts from the current progress. */
    method TouchStart(y: real)
      modifies this`touchStartY, this`touchProgress
      ensures isMobile ==> touchStartY == y && touchProgress == progress
      ensures !isMobile ==> touchStartY == old(touchStartY) && touchProgress == old(touchProgress)
      ensures old(InRange()) ==> InRange()
    {
      if isMobile {
        touchStartY := y;
        touchProgress := progress;
      }
    }

    /** A touch move to height `y` (mobile only): progress moves by the drag since the previous
        event and both halves of the touch ref are replaced, so tracking is incremental. */
    method TouchMove(y: real)
      modifies this`progress, this`touchStartY, this`touchProgress
      ensures isMobile ==> progress == TouchMoveProgress(old(touchProgress), old(touchStartY), y)
      ensures isMobile ==> touchStartY == y && touchProgress == progress && InRange()
      ensures !isMobile ==> progress == old(progress) && touchStartY == old(touchStartY) && touchProgress == old(touchProgress)
      ensures old(InRange()) ==> InRange()
    {
      if isMobile {
        var p := TouchMoveProgress(touchProgress, touchStartY, y);
        progress := p;
        touchStartY := y;
        touchProgress := p;
      }
    }

    /** The one-shot timer after mount marks the scene as loaded. */
    method MarkLoaded()
      modifies this`isLoaded
      ensures isLoaded
    {
      isLoaded := true;
    }

    /** `goToSection(index)`.  On mobile it writes the target progress (unclamped) and leaves the
        touch ref alone; on desktop it writes nothing and returns the scroll offset it requests. */
    method GoToSection(index: int, m: Viewport.ScrollMetrics) returns (scrollTo: Option<real>)
      modifies this`progress
      ensures isMobile ==> scrollTo == None && progress == TargetProgress(index, Sections.Count())
      ensures isMobile && 0 <= index < Sections.Count() ==> CurrentSection() == index
      ensures !isMobile ==> scrollTo == Some(ScrollTarget(index, m)) && progress == old(progress)
      ensures 0 <= index < Sections.Count() && old(InRange()) ==> InRange()
    {
      var target := TargetProgress(index, Sections.Count());
      if isMobile {
        progress := target;
        scrollTo := None;
        if 0 <= index < Sections.Count() {
          GoToSectionRoundTrip(index, Sections.Count());
        }
      } else {
        scrollTo := Some(ScrollTarget(index, m));
      }
    }
  }
}
