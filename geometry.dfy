/**
 * Rectangle helpers of the engine (`_rect_area`, `_rect_contains`,
 * `_rect_overlap_ratio`, the local `_bbox_intersects`) over PyMuPDF-style
 * rectangles `(x0, y0, x1, y1)`.
 */
module Geometry {
  import opened Common

  /** A rectangle as given: nothing forces `x0 <= x1` or `y0 <= y1`. */
  datatype Rect = Rect(x0: real, y0: real, x1: real, y1: real)

  /** `Rect.width` of PyMuPDF: never negative. */
  function Width(r: Rect): real
  {
    Max(r.x1 - r.x0, 0.0)
  }

  /** `Rect.height` of PyMuPDF: never negative. */
  function Height(r: Rect): real
  {
    Max(r.y1 - r.y0, 0.0)
  }

  /** `_rect_area`: `max(0, (x1 - x0) * (y1 - y0))`. */
  function Area(r: Rect): (a: real)
    ensures a >= 0.0
  {
    Max(0.0, (r.x1 - r.x0) * (r.y1 - r.y0))
  }

  /** `_rect_contains(outer, inner, margin)`. */
  predicate Contains(outer: Rect, inner: Rect, margin: real)
  {
    && inner.x0 >= outer.x0 - margin
    && inner.y0 >= outer.y0 - margin
    && inner.x1 <= outer.x1 + margin
    && inner.y1 <= outer.y1 + margin
  }

  /**
   * `r1 & r2`, clamped so that the intersection of disjoint rectangles has
   * no extent. MuPDF itself leaves such an intersection inverted (see
   * `RawIntersect`); this model uses the clamped form.
   */
  function Intersect(a: Rect, b: Rect): (r: Rect)
    ensures r.x0 <= r.x1 && r.y0 <= r.y1
  {
    var x0 := Max(a.x0, b.x0);
    var y0 := Max(a.y0, b.y0);
    Rect(x0, y0, Max(x0, Min(a.x1, b.x1)), Max(y0, Min(a.y1, b.y1)))
  }

  /**
   * `_rect_overlap_ratio`: intersection area over the smaller area, 0 when
   * either rectangle or the intersection has no area.
   */
  function OverlapRatio(r1: Rect, r2: Rect): real
  {
    var a1 := Area(r1);
    var a2 := Area(r2);
    if a1 == 0.0 || a2 == 0.0 then 0.0
    else
      var ia := Area(Intersect(r1, r2));
      if ia == 0.0 then 0.0 else ia / Min(a1, a2)
  }

  /** The local `_bbox_intersects(b1, b2, margin)`: not separated by more than `margin` on any side. */
  predicate BboxIntersects(b1: Rect, b2: Rect, margin: real)
  {
    !(b1.x1 + margin < b2.x0 || b1.x0 - margin > b2.x1 || b1.y1 + margin < b2.y0 || b1.y0 - margin > b2.y1)
  }

  /** `fitz.Rect(x0 - m, y0 - m, x1 + m, y1 + m)`. */
  function Inflate(r: Rect, m: real): Rect
  {
    Rect(r.x0 - m, r.y0 - m, r.x1 + m, r.y1 + m)
  }

  lemma IntersectSymmetric(a: Rect, b: Rect)
    ensures Intersect(a, b) == Intersect(b, a)
  {
  }

  /** Degenerate rectangles and disjoint pairs have overlap exactly 0. */
  lemma OverlapRatioZero(r1: Rect, r2: Rect)
    ensures Area(r1) == 0.0 ==> OverlapRatio(r1, r2) == 0.0
    ensures Area(r2) == 0.0 ==> OverlapRatio(r1, r2) == 0.0
    ensures Area(Intersect(r1, r2)) == 0.0 ==> OverlapRatio(r1, r2) == 0.0
    ensures r1.x1 <= r2.x0 || r2.x1 <= r1.x0 || r1.y1 <= r2.y0 || r2.y1 <= r1.y0 ==> OverlapRatio(r1, r2) == 0.0
  {
    var i := Intersect(r1, r2);
    if r1.x1 <= r2.x0 || r2.x1 <= r1.x0 {
      assert i.x1 == i.x0;
    }
    if r1.y1 <= r2.y0 || r2.y1 <= r1.y0 {
      assert i.y1 == i.y0;
    }
  }

  /** The overlap ratio does not depend on argument order. */
  lemma OverlapRatioSymmetric(r1: Rect, r2: Rect)
    ensures OverlapRatio(r1, r2) == OverlapRatio(r2, r1)
  {
    IntersectSymmetric(r1, r2);
  }

  /** A proper rectangle inside `r` has no more area than `r`. */
  lemma InsideAreaBound(i: Rect, r: Rect)
    requires i.x0 < i.x1 && i.y0 < i.y1
    requires r.x0 <= i.x0 && i.x1 <= r.x1 && r.y0 <= i.y0 && i.y1 <= r.y1
    ensures Area(i) <= Area(r)
  {
    MulMono(i.x1 - i.x0, i.y1 - i.y0, r.x1 - r.x0, r.y1 - r.y0);
  }

  /** An intersection with area is a proper rectangle. */
  lemma IntersectionProper(r1: Rect, r2: Rect)
    requires Area(Intersect(r1, r2)) > 0.0
    ensures var i := Intersect(r1, r2); i.x0 < i.x1 && i.y0 < i.y1
  {
  }

  /** A positive-area intersection lies within each rectangle, so its area is no larger. */
  lemma IntersectionAreaBound(r1: Rect, r2: Rect)
    requires Area(Intersect(r1, r2)) > 0.0
    ensures Area(Intersect(r1, r2)) <= Area(r1)
    ensures Area(Intersect(r1, r2)) <= Area(r2)
  {
    var i := Intersect(r1, r2);
    IntersectionProper(r1, r2);
    InsideAreaBound(i, r1);
    InsideAreaBound(i, r2);
  }

  /** The overlap ratio is a fraction: between 0 and 1. */
  lemma OverlapRatioInUnitRange(r1: Rect, r2: Rect)
    ensures 0.0 <= OverlapRatio(r1, r2) <= 1.0
  {
    var a1, a2 := Area(r1), Area(r2);
    if a1 != 0.0 && a2 != 0.0 {
      var ia := Area(Intersect(r1, r2));
      if ia != 0.0 {
        IntersectionAreaBound(r1, r2);
        QuotientBetween(ia, Min(a1, a2), 0.0, 1.0);
      }
    }
  }

  /** Containment with a margin still holds with any larger margin. */
  lemma ContainsMonotone(outer: Rect, inner: Rect, m1: real, m2: real)
    requires m1 <= m2 && Contains(outer, inner, m1)
    ensures Contains(outer, inner, m2)
  {
  }

  /** A proper rectangle inside another overlaps it completely (ratio 1). */
  lemma ContainedOverlapsFully(outer: Rect, inner: Rect)
    requires inner.x0 < inner.x1 && inner.y0 < inner.y1
    requires Contains(outer, inner, 0.0)
    ensures OverlapRatio(outer, inner) == 1.0
  {
    var i := Intersect(outer, inner);
    assert i == inner;
    var wi, hi := inner.x1 - inner.x0, inner.y1 - inner.y0;
    var wo, ho := outer.x1 - outer.x0, outer.y1 - outer.y0;
    assert wi * hi > 0.0;
    MulMono(wi, hi, wo, ho);
    assert Area(inner) == wi * hi;
    assert Area(inner) <= Area(outer);
    DivSelf(Area(inner));
  }

  /** `_bbox_intersects` is symmetric and grows with the margin. */
  lemma BboxIntersectsProps(b1: Rect, b2: Rect, m1: real, m2: real)
    ensures BboxIntersects(b1, b2, m1) == BboxIntersects(b2, b1, m1)
    ensures m1 <= m2 && BboxIntersects(b1, b2, m1) ==> BboxIntersects(b1, b2, m2)
  {
  }

  /** Rectangles whose intersection has area are within any non-negative margin of each other. */
  lemma OverlapImpliesBboxIntersects(b1: Rect, b2: Rect, m: real)
    requires m >= 0.0 && Area(Intersect(b1, b2)) > 0.0
    ensures BboxIntersects(b1, b2, m)
  {
    IntersectionProper(b1, b2);
  }

  // ---------------------------------------------------------------------
  // `r1 & r2` without clamping
  // ---------------------------------------------------------------------

  /**
   * `r1 & r2` as MuPDF computes it: the larger lower corner and the smaller
   * upper corner. For disjoint rectangles the result is inverted.
   */
  function RawIntersect(a: Rect, b: Rect): Rect
  {
    Rect(Max(a.x0, b.x0), Max(a.y0, b.y0), Min(a.x1, b.x1), Min(a.y1, b.y1))
  }

  /** `_rect_overlap_ratio` as written, on the unclamped intersection. */
  function RawOverlapRatio(r1: Rect, r2: Rect): real
  {
    var a1 := Area(r1);
    var a2 := Area(r2);
    if a1 == 0.0 || a2 == 0.0 then 0.0
    else
      var ia := Area(RawIntersect(r1, r2));
      if ia == 0.0 then 0.0 else ia / Min(a1, a2)
  }

  /**
   * A rectangle lying diagonally beyond another, apart on both axes, gets
   * a positive overlap as written: `_rect_area` of the inverted
   * intersection multiplies two negative extents. The clamped ratio is 0.
   */
  lemma RawOverlapOfDiagonalPair(r1: Rect, r2: Rect)
    requires r1.x0 < r1.x1 < r2.x0 < r2.x1 && r1.y0 < r1.y1 < r2.y0 < r2.y1
    ensures RawOverlapRatio(r1, r2) > 0.0
    ensures OverlapRatio(r1, r2) == 0.0
  {
    var i := RawIntersect(r1, r2);
    assert i == Rect(r2.x0, r2.y0, r1.x1, r1.y1);
    var dx, dy := r2.x0 - r1.x1, r2.y0 - r1.y1;
    assert (i.x1 - i.x0) * (i.y1 - i.y0) == dx * dy > 0.0;
    ProperArea(r1);
    ProperArea(r2);
    OverlapRatioZero(r1, r2);
  }

  lemma ProperArea(r: Rect)
    requires r.x0 < r.x1 && r.y0 < r.y1
    ensures Area(r) > 0.0
  {
    var w, h := r.x1 - r.x0, r.y1 - r.y0;
    assert w * h > 0.0;
  }

  /** `(0, 0, 10, 10)` and `(20, 20, 30, 30)` overlap completely as written. */
  lemma RawOverlapExample()
    ensures RawOverlapRatio(Rect(0.0, 0.0, 10.0, 10.0), Rect(20.0, 20.0, 30.0, 30.0)) == 1.0
    ensures OverlapRatio(Rect(0.0, 0.0, 10.0, 10.0), Rect(20.0, 20.0, 30.0, 30.0)) == 0.0
  {
    var r1, r2 := Rect(0.0, 0.0, 10.0, 10.0), Rect(20.0, 20.0, 30.0, 30.0);
    assert RawIntersect(r1, r2) == Rect(20.0, 20.0, 10.0, 10.0);
    assert Area(RawIntersect(r1, r2)) == 100.0;
    assert Area(r1) == 100.0 && Area(r2) == 100.0;
    DivSelf(100.0);
    OverlapRatioZero(r1, r2);
  }
}
