/** `Helper`: exchanging two variables and the conversions between `Point`
    and `Vector2`. */
module Helper {
  import opened Xna

  /** `Swap(ref a, ref b)`: the two `ref` parameters come back exchanged. */
  method Swap<T>(a: T, b: T) returns (a': T, b': T)
    ensures a' == b && b' == a
  {
    var c := a;
    a' := b;
    b' := c;
  }

  /** Two swaps in a row give back the original values. */
  method SwapTwice<T>(a: T, b: T) returns (a': T, b': T)
    ensures a' == a && b' == b
  {
    var x, y := Swap(a, b);
    a', b' := Swap(x, y);
  }

  /** `PointToVector2`: the exact coordinates of the point. */
  function PointToVector2(p: Point): (v: Vec)
    ensures Integral(v)
    ensures v.x.Floor == p.x && v.y.Floor == p.y
  {
    Vec(p.x as real, p.y as real)
  }

  /** `Vector2ToPoint`: each coordinate cast to `int`, truncating toward
      zero. */
  function Vector2ToPoint(v: Vec): (p: Point)
    ensures 0.0 <= v.x ==> p.x as real <= v.x < p.x as real + 1.0
    ensures v.x < 0.0 ==> p.x as real - 1.0 < v.x <= p.x as real
    ensures 0.0 <= v.y ==> p.y as real <= v.y < p.y as real + 1.0
    ensures v.y < 0.0 ==> p.y as real - 1.0 < v.y <= p.y as real
  {
    Point(Trunc(v.x), Trunc(v.y))
  }

  /** A point survives the trip through `Vector2`. */
  lemma PointRoundTrip(p: Point)
    ensures Vector2ToPoint(PointToVector2(p)) == p
  {
    assert Trunc(p.x as real) == p.x;
    assert Trunc(p.y as real) == p.y;
  }

  /** A vector with whole components survives the trip through `Point`;
      any other vector does not. */
  lemma VectorRoundTrip(v: Vec)
    ensures PointToVector2(Vector2ToPoint(v)) == v <==> Integral(v)
  {
    var p := Vector2ToPoint(v);
    if Integral(v) {
      assert Trunc(v.x) == v.x.Floor;
      assert Trunc(v.y) == v.y.Floor;
    }
  }
}
