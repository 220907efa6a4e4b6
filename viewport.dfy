/** The viewport classification: three breakpoint flags and a chrome scale
    factor, all functions of the window width. */
module Viewport {
  const MOBILE_BELOW: real := 640.0
  const TABLET_UP_TO: real := 1024.0
  /** Width at which the scale reaches 1. */
  const UI_SCALE_REF: real := 1200.0
  /** The scale never goes below this. */
  const UI_SCALE_MIN: real := 0.65

  datatype ViewportInfo = ViewportInfo(
    width: real, height: real,
    isMobile: bool, isTablet: bool, isDesktop: bool,
    uiScale: real)

  function Max(a: real, b: real): real { if a >= b then a else b }
  function Min(a: real, b: real): real { if a <= b then a else b }

  /** `Math.min(1, Math.max(UI_SCALE_MIN, width / UI_SCALE_REF))` */
  function UiScale(width: real): (r: real)
    ensures UI_SCALE_MIN <= r <= 1.0
  {
    Min(1.0, Max(UI_SCALE_MIN, width / UI_SCALE_REF))
  }

  /** The record `useViewport` returns for a window size. */
  function Info(width: real, height: real): (r: ViewportInfo)
    ensures r.width == width && r.height == height
    ensures r.isMobile <==> width < 640.0
    ensures r.isTablet <==> 640.0 <= width <= 1024.0
    ensures r.isDesktop <==> width > 1024.0
    ensures 0.65 <= r.uiScale <= 1.0
  {
    ViewportInfo(width, height,
      width < MOBILE_BELOW, width >= MOBILE_BELOW && width <= TABLET_UP_TO, width > TABLET_UP_TO,
      UiScale(width))
  }

  /** Every width falls in exactly one class. */
  lemma ExactlyOneClass(width: real, height: real)
    ensures var v := Info(width, height);
      (if v.isMobile then 1 else 0) + (if v.isTablet then 1 else 0) + (if v.isDesktop then 1 else 0) == 1
  {
  }

  /** The scale is 0.65 up to 780 px, proportional to the width between 780
      and 1200 px, and 1 from 1200 px on. */
  lemma UiScalePieces(width: real)
    ensures width <= 780.0 ==> UiScale(width) == 0.65
    ensures 780.0 <= width <= 1200.0 ==> UiScale(width) == width / 1200.0
    ensures width >= 1200.0 ==> UiScale(width) == 1.0
  {
  }

  /** A wider window never gets a smaller scale. */
  lemma UiScaleMonotone(a: real, b: real)
    requires a <= b
    ensures UiScale(a) <= UiScale(b)
  {
    assert a / UI_SCALE_REF <= b / UI_SCALE_REF;
  }
}
