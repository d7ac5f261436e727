/**
 * Relative luminance and contrast ratio as defined in the glossary of
 * WCAG 2.1, with the thresholds of Success Criteria 1.4.3 (AA) and 1.4.6
 * (AAA) (`calculate_relative_luminance`, `calculate_contrast_ratio`).
 */
module Contrast {
  import opened Common
  import opened Colors

  /**
   * The curve `x ** 2.4` on [0,1]. Floating-point exponentiation is not
   * modelled; the engine only relies on the curve mapping [0,1] into [0,1]
   * and 1 to 1, so it is a parameter constrained by exactly that.
   */
  type PowerCurve = f: real -> real | (forall x :: 0.0 <= x <= 1.0 ==> 0.0 <= f(x) <= 1.0) && f(1.0) == 1.0
    witness (x: real) => x

  /** The `adjust` step: clamp, then linearise the sRGB channel. */
  function Adjust(pow: PowerCurve, v: real): (a: real)
    ensures 0.0 <= a <= 1.0
  {
    var c := Clamp01(v);
    if c <= 0.03928 then c / 12.92 else pow((c + 0.055) / 1.055)
  }

  /** `0.2126 R + 0.7152 G + 0.0722 B` over the linearised channels. */
  function RelativeLuminance(pow: PowerCurve, c: Color): (l: real)
  {
    0.2126 * Adjust(pow, c.r) + 0.7152 * Adjust(pow, c.g) + 0.0722 * Adjust(pow, c.b)
  }

  /** Luminance lies in [0,1] because the three weights sum to 1. */
  lemma LuminanceInUnitRange(pow: PowerCurve, c: Color)
    ensures 0.0 <= RelativeLuminance(pow, c) <= 1.0
  {
    var r, g, b := Adjust(pow, c.r), Adjust(pow, c.g), Adjust(pow, c.b);
    assert 0.2126 * r <= 0.2126 && 0.7152 * g <= 0.7152 && 0.0722 * b <= 0.0722;
  }

  lemma LuminanceOfBlackAndWhite(pow: PowerCurve)
    ensures RelativeLuminance(pow, Black) == 0.0
    ensures RelativeLuminance(pow, White) == 1.0
  {
    assert (1.0 + 0.055) / 1.055 == 1.0;
  }

  /** The tuple `(ratio, AA normal, AA large, AAA normal, AAA large)`. */
  datatype ContrastResult = ContrastResult(ratio: real, aaNormal: bool, aaLarge: bool, aaaNormal: bool, aaaLarge: bool)

  /** `(lighter + 0.05) / (darker + 0.05)` for two luminances. */
  function LuminanceRatio(l1: real, l2: real): real
    requires l1 >= 0.0 && l2 >= 0.0
  {
    (Max(l1, l2) + 0.05) / (Min(l1, l2) + 0.05)
  }

  /** The contrast ratio of two colours and its four pass flags. */
  function ContrastOf(pow: PowerCurve, c1: Color, c2: Color): ContrastResult
  {
    LuminanceInUnitRange(pow, c1);
    LuminanceInUnitRange(pow, c2);
    var ratio := LuminanceRatio(RelativeLuminance(pow, c1), RelativeLuminance(pow, c2));
    ContrastResult(ratio, ratio >= 4.5, ratio >= 3.0, ratio >= 7.0, ratio >= 4.5)
  }

  /** `calculate_contrast_ratio`: None when either colour is missing. */
  function ContrastRatio(pow: PowerCurve, c1: Option<Color>, c2: Option<Color>): (r: Option<ContrastResult>)
  {
    if c1.None? || c2.None? then None else Some(ContrastOf(pow, c1.value, c2.value))
  }

  /** The result is present exactly when both colours are. */
  lemma ContrastRatioDefined(pow: PowerCurve, c1: Option<Color>, c2: Option<Color>)
    ensures ContrastRatio(pow, c1, c2).Some? <==> c1.Some? && c2.Some?
  {
  }

  /** The ratio does not depend on the order of the two colours. */
  lemma ContrastSymmetric(pow: PowerCurve, c1: Option<Color>, c2: Option<Color>)
    ensures ContrastRatio(pow, c1, c2) == ContrastRatio(pow, c2, c1)
  {
  }

  /** Every ratio lies between 1:1 and 21:1. */
  lemma ContrastBounds(pow: PowerCurve, c1: Color, c2: Color)
    ensures 1.0 <= ContrastOf(pow, c1, c2).ratio <= 21.0
  {
    LuminanceInUnitRange(pow, c1);
    LuminanceInUnitRange(pow, c2);
    LuminanceRatioBounds(RelativeLuminance(pow, c1), RelativeLuminance(pow, c2));
  }

  /** For luminances in [0,1] the ratio is at least 1 and at most 1.05 / 0.05 = 21. */
  lemma LuminanceRatioBounds(l1: real, l2: real)
    requires 0.0 <= l1 <= 1.0 && 0.0 <= l2 <= 1.0
    ensures 1.0 <= LuminanceRatio(l1, l2) <= 21.0
  {
    var hi, lo := Max(l1, l2) + 0.05, Min(l1, l2) + 0.05;
    assert LuminanceRatio(l1, l2) == hi / lo;
    assert lo <= hi <= 1.05 && 21.0 * lo >= 1.05;
    QuotientBetween(hi, lo, 1.0, 21.0);
  }

  /** A colour against itself has ratio exactly 1. */
  lemma ContrastWithSelf(pow: PowerCurve, c: Color)
    ensures ContrastOf(pow, c, c).ratio == 1.0
  {
    LuminanceInUnitRange(pow, c);
    var l := RelativeLuminance(pow, c);
    var x := l + 0.05;
    assert LuminanceRatio(l, l) == x / x;
    DivSelf(x);
  }

  /**
   * The flags are the four thresholds: AAA normal implies AA normal implies
   * AA large, and AAA large coincides with AA normal (both 4.5).
   */
  lemma ContrastFlags(pow: PowerCurve, c1: Color, c2: Color)
    ensures var r := ContrastOf(pow, c1, c2);
      && (r.aaNormal <==> r.ratio >= 4.5)
      && (r.aaLarge <==> r.ratio >= 3.0)
      && (r.aaaNormal <==> r.ratio >= 7.0)
      && (r.aaaNormal ==> r.aaNormal)
      && (r.aaNormal ==> r.aaLarge)
      && r.aaaLarge == r.aaNormal
  {
  }

  /** Black on white is 21:1 and passes every level. */
  lemma BlackOnWhite(pow: PowerCurve)
    ensures ContrastRatio(pow, Some(Black), Some(White)) == Some(ContrastResult(21.0, true, true, true, true))
    ensures ContrastRatio(pow, Some(White), Some(Black)) == Some(ContrastResult(21.0, true, true, true, true))
  {
    LuminanceOfBlackAndWhite(pow);
  }
}
