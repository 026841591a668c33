/** The parts of the XNA framework and of C# that the engine relies on,
    written out: `Vector2` as a pair of reals, `Point` and `Rectangle` over
    integers, the rectangle queries, and the C# conversions that truncate. */
module Xna {

  /** `Vector2`, with exact real components instead of 32-bit floats. */
  datatype Vec = Vec(x: real, y: real)

  const Zero: Vec := Vec(0.0, 0.0)

  function Add(a: Vec, b: Vec): Vec { Vec(a.x + b.x, a.y + b.y) }

  function Sub(a: Vec, b: Vec): Vec { Vec(a.x - b.x, a.y - b.y) }

  /** `Vector2.Multiply(v, k)`. */
  function Scale(v: Vec, k: real): Vec { Vec(v.x * k, v.y * k) }

  function Abs(r: real): real { if r < 0.0 then -r else r }

  /** `Point`. */
  datatype Point = Point(x: int, y: int)

  /** `Rectangle`: a corner and a size; nothing forces the size to be
      non-negative, as in XNA. */
  datatype Rect = Rect(x: int, y: int, width: int, height: int) {
    function Left(): int { x }
    function Top(): int { y }
    function Right(): int { x + width }
    function Bottom(): int { y + height }
  }

  /** `Rectangle.Empty`. */
  const Empty: Rect := Rect(0, 0, 0, 0)

  /** The C# cast `(int)f` of a float: truncation toward zero. */
  function Trunc(r: real): (n: int)
    ensures 0.0 <= r ==> n as real <= r < n as real + 1.0
    ensures r < 0.0 ==> n as real - 1.0 < r <= n as real
  {
    if r >= 0.0 then r.Floor else -((-r).Floor)
  }

  /** The C# expression `w / 2` on an `int`: division truncating toward zero,
      so the remainder has the sign of `w`. */
  function Half(w: int): (h: int)
    ensures 0 <= w ==> 0 <= w - 2 * h <= 1
    ensures w < 0 ==> -1 <= w - 2 * h <= 0
  {
    if w >= 0 then w / 2 else -((-w) / 2)
  }

  /** `Rectangle.Intersects`: strict overlap on both axes. */
  predicate Intersects(a: Rect, b: Rect) {
    b.x < a.Right() && a.x < b.Right() && b.y < a.Bottom() && a.y < b.Bottom()
  }

  function Max(a: int, b: int): int { if a > b then a else b }

  function Min(a: int, b: int): int { if a < b then a else b }

  /** True when both sides of `r` are positive. */
  predicate Proper(r: Rect) { 0 < r.width && 0 < r.height }

  /** `Rectangle.Intersect`: the overlap of two rectangles, or `Empty` when
      they do not overlap. `Intersects` alone does not imply a non-empty
      overlap: a rectangle of zero or negative size can pass the strict test. */
  function Intersect(a: Rect, b: Rect): (r: Rect)
    ensures r != Empty <==> Intersects(a, b) && Proper(a) && Proper(b)
    ensures r != Empty ==>
      && 0 < r.width && 0 < r.height
      && a.Left() <= r.Left() && r.Right() <= a.Right() && a.Top() <= r.Top() && r.Bottom() <= a.Bottom()
      && b.Left() <= r.Left() && r.Right() <= b.Right() && b.Top() <= r.Top() && r.Bottom() <= b.Bottom()
      && (r.Left() == a.Left() || r.Left() == b.Left()) && (r.Right() == a.Right() || r.Right() == b.Right())
      && (r.Top() == a.Top() || r.Top() == b.Top()) && (r.Bottom() == a.Bottom() || r.Bottom() == b.Bottom())
  {
    var left := Max(a.x, b.x);
    var top := Max(a.y, b.y);
    var right := Min(a.Right(), b.Right());
    var bottom := Min(a.Bottom(), b.Bottom());
    if right > left && bottom > top then Rect(left, top, right - left, bottom - top) else Empty
  }

  /** `Rectangle.Contains(Point)`: half-open on both axes. */
  predicate Contains(r: Rect, p: Point) {
    r.x <= p.x < r.x + r.width && r.y <= p.y < r.y + r.height
  }

  /** `Rectangle.Center`. */
  function Center(r: Rect): Point {
    Point(r.x + Half(r.width), r.y + Half(r.height))
  }

  /** True when both components of `v` are whole numbers. */
  predicate Integral(v: Vec) {
    v.x == v.x.Floor as real && v.y == v.y.Floor as real
  }
}
