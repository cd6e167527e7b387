/** The window readings both scene versions take: the device class, derived from the viewport width
    on every resize, and the scroll offsets read on every scroll event. */
module Viewport {

  /** Viewports narrower than this many CSS pixels count as mobile. */
  const MobileBreakpoint: real := 768.0

  /** `window.innerWidth < 768`. */
  predicate IsMobileWidth(innerWidth: real) {
    innerWidth < MobileBreakpoint
  }

  /** The device class is a threshold on the width: a phone-sized 767 px window is mobile, a 768 px
      one is not, a narrower window than a mobile one is mobile, and a wider window than a desktop
      one is desktop. */
  lemma DeviceClassIsThreshold(narrow: real, wide: real)
    requires narrow <= wide
    ensures IsMobileWidth(767.0) && !IsMobileWidth(768.0)
    ensures IsMobileWidth(wide) ==> IsMobileWidth(narrow)
    ensures !IsMobileWidth(narrow) ==> !IsMobileWidth(wide)
  {
  }

  /** What the window reports when a scroll handler runs: `window.scrollY`,
      `document.documentElement.scrollHeight` and `window.innerHeight`. */
  datatype ScrollMetrics = ScrollMetrics(scrollY: real, documentHeight: real, innerHeight: real) {
    /** The scroll range `scrollHeight - innerHeight`. */
    function Range(): real { documentHeight - innerHeight }
  }
}
