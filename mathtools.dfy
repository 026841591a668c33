/** The integer helpers of the engine's `MathTools`, and the record of its
    floating-point geometry, which the model leaves uninterpreted. */
module MathTools {
  import opened Wrappers
  import opened Xna

  /** The floating-point geometry the engine computes with `atan2`, `sin`,
      `cos`, rounding and `sqrt`: `MathTools.GetAngle`, `MathTools.Move`,
      `MathTools.IntersectLines` and `Vector2.Distance`. The model proves
      nothing about their values; the operations that use them take this
      record as a parameter. */
  datatype FloatOps = FloatOps(
    getAngle: (Vec, Vec) -> real,
    move: (Vec, real, real) -> Vec,
    intersectLines: (Vec, Vec, Vec, Vec) -> Option<Vec>,
    distance: (Vec, Vec) -> real)

  /** `PointInRect`: both coordinates are cast to `int` (truncated toward
      zero) and the point is checked with the half-open `Contains`. */
  predicate PointInRect(p: Vec, r: Rect) {
    Contains(r, Point(Trunc(p.x), Trunc(p.y)))
  }

  /** For a point with non-negative coordinates the truncating cast does not
      matter: the test is the half-open box test on the exact coordinates. */
  lemma PointInRectNonNegative(p: Vec, r: Rect)
    requires 0.0 <= p.x && 0.0 <= p.y
    ensures PointInRect(p, r) <==>
      && r.x as real <= p.x < (r.x + r.width) as real
      && r.y as real <= p.y < (r.y + r.height) as real
  {
    var px, py := Trunc(p.x), Trunc(p.y);
    assert px as real <= p.x < px as real + 1.0;
    assert py as real <= p.y < py as real + 1.0;
  }

  /** Truncation toward zero folds the open strip (-1, 0) onto row and
      column 0, so a rectangle with its corner at the origin also reports
      every point less than one unit left of or above it. */
  lemma PointInRectTruncatesTowardZero(p: Vec, r: Rect)
    requires r.x == 0 && r.y == 0
    ensures PointInRect(p, r) <==>
      0 < r.width && 0 < r.height && -1.0 < p.x < r.width as real && -1.0 < p.y < r.height as real
  {
    var px, py := Trunc(p.x), Trunc(p.y);
    if p.x < 0.0 {
      assert px as real - 1.0 < p.x <= px as real;
    } else {
      assert px as real <= p.x < px as real + 1.0;
    }
    if p.y < 0.0 {
      assert py as real - 1.0 < p.y <= py as real;
    } else {
      assert py as real <= p.y < py as real + 1.0;
    }
  }

  /** The top-left corner of a rectangle of positive size is inside it; the
      bottom-right corner `(Right, Bottom)` is not. */
  lemma PointInRectCorners(r: Rect)
    requires Proper(r)
    ensures PointInRect(Vec(r.x as real, r.y as real), r)
    ensures !PointInRect(Vec(r.Right() as real, r.Bottom() as real), r)
  {
    assert Trunc(r.x as real) == r.x;
    assert Trunc(r.y as real) == r.y;
    assert Trunc(r.Right() as real) == r.Right();
    assert Trunc(r.Bottom() as real) == r.Bottom();
  }

  /** A rectangle with no width or no height contains no point. */
  lemma PointInRectDegenerate(p: Vec, r: Rect)
    requires r.width <= 0 || r.height <= 0
    ensures !PointInRect(p, r)
  {
  }

  /** `Percent(value, range)`: `value / range * 100`. For a zero range the
      source's 32-bit float division gives an infinity or NaN, which is
      `None` here. */
  function Percent(v: real, range: real): (p: Option<real>)
    ensures p.Some? <==> range != 0.0
    ensures p.Some? ==> p.value * range == v * 100.0
  {
    if range == 0.0 then None else Some(v / range * 100.0)
  }

  lemma PercentBounds(range: real)
    requires range != 0.0
    ensures Percent(0.0, range) == Some(0.0)
    ensures Percent(range, range) == Some(100.0)
  {
  }

  /** For a fixed non-zero range `Percent` is linear in its value. */
  lemma PercentLinear(a: real, v: real, b: real, w: real, range: real)
    requires range != 0.0
    ensures Percent(a * v + b * w, range).value ==
      a * Percent(v, range).value + b * Percent(w, range).value
  {
    var pv, pw := Percent(v, range).value, Percent(w, range).value;
    var p := Percent(a * v + b * w, range).value;
    assert (a * pv + b * pw) * range == a * (pv * range) + b * (pw * range);
    assert p * range == (a * pv + b * pw) * range;
  }
}
