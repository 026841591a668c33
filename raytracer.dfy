/** `RayTracer`: casts a segment from `Source`, `Radius` units long in
    direction `Direction`, and finds the nearest point where it crosses an
    edge of a body of the world. The far end of the segment, the crossing
    points and their distances come from the uninterpreted floating-point
    geometry; what is modelled is which bodies are tried, which edges are
    tried and in what order, and which crossing is chosen. */
module PhysicsRayTracer {
  import opened Wrappers
  import opened Xna
  import opened MathTools
  import opened PhysicsBody
  import opened PhysicsWorld
  import opened Sorting

  /** `ZDiscard(Z, list)`: a null list discards nothing. */
  predicate Discarded(z: int, zList: Option<seq<int>>) {
    zList.Some? && z in zList.value
  }

  function RMin(a: real, b: real): real { if a > b then b else a }

  function RMax(a: real, b: real): real { if a > b then a else b }

  /** `ComputeRayArea`, once the far end `b` of the ray is known: the box
      spanned by the two ends, one unit taller when the direction, cast to
      `int`, is horizontal (0 or 180) and one unit wider when it is vertical
      (90 or 270), with every coordinate cast to `int`. */
  function RayArea(a: Vec, b: Vec, direction: real): Rect {
    var lo := Vec(RMin(a.x, b.x), RMin(a.y, b.y));
    var hi := Vec(RMax(a.x, b.x), RMax(a.y, b.y));
    var d := Trunc(direction);
    var lo', hi' :=
      if d == 0 || d == 180 then Vec(lo.x, lo.y - 1.0) else if d == 90 || d == 270 then Vec(lo.x - 1.0, lo.y) else lo,
      if d == 0 || d == 180 then Vec(hi.x, hi.y + 1.0) else if d == 90 || d == 270 then Vec(hi.x + 1.0, hi.y) else hi;
    Rect(Trunc(lo'.x), Trunc(lo'.y), Trunc(hi'.x - lo'.x), Trunc(hi'.y - lo'.y))
  }

  /** The ray area is never of negative size, and a ray along an axis gets
      an area at least two units thick across it. */
  lemma RayAreaSize(a: Vec, b: Vec, direction: real)
    ensures RayArea(a, b, direction).width >= 0 && RayArea(a, b, direction).height >= 0
    ensures Trunc(direction) == 0 || Trunc(direction) == 180 ==> RayArea(a, b, direction).height >= 2
    ensures Trunc(direction) == 90 || Trunc(direction) == 270 ==> RayArea(a, b, direction).width >= 2
  {
    var lo := Vec(RMin(a.x, b.x), RMin(a.y, b.y));
    var hi := Vec(RMax(a.x, b.x), RMax(a.y, b.y));
    assert lo.x <= hi.x && lo.y <= hi.y;
    var d := Trunc(direction);
    if d == 0 || d == 180 {
      assert Trunc(hi.y + 1.0 - (lo.y - 1.0)) >= 2;
    } else if d == 90 || d == 270 {
      assert Trunc(hi.x + 1.0 - (lo.x - 1.0)) >= 2;
    }
  }

  /** The two ends of the ray may be given in either order. */
  lemma RayAreaSymmetric(a: Vec, b: Vec, direction: real)
    ensures RayArea(a, b, direction) == RayArea(b, a, direction)
  {
    assert RMin(a.x, b.x) == RMin(b.x, a.x) && RMax(a.x, b.x) == RMax(b.x, a.x);
    assert RMin(a.y, b.y) == RMin(b.y, a.y) && RMax(a.y, b.y) == RMax(b.y, a.y);
  }

  /** The test `GetBodiesInArea` applies to the `k`-th body; `src` is the
      position of `SourceBody` in the list, if it is there. */
  predicate Candidate(bs: seq<BodyState>, src: Option<nat>, area: Rect, zList: Option<seq<int>>, k: nat)
    requires k < |bs|
  {
    src != Some(k) && bs[k].enabled && !bs[k].trigger && !Discarded(bs[k].z, zList)
    && Intersect(area, bs[k].bounds) != Empty
  }

  /** The positions, among the first `n` bodies, of those that pass the
      test, in list order. */
  function CandidatesUpTo(bs: seq<BodyState>, src: Option<nat>, area: Rect, zList: Option<seq<int>>, n: nat): (c: seq<nat>)
    requires n <= |bs|
    ensures forall p :: 0 <= p < |c| ==> c[p] < n
  {
    if n == 0 then []
    else
      var c := CandidatesUpTo(bs, src, area, zList, n - 1);
      if Candidate(bs, src, area, zList, n - 1) then c + [n - 1] else c
  }

  function Candidates(bs: seq<BodyState>, src: Option<nat>, area: Rect, zList: Option<seq<int>>): seq<nat> {
    CandidatesUpTo(bs, src, area, zList, |bs|)
  }

  /** The candidates are exactly the bodies that pass the test. */
  lemma {:induction false} CandidatesExactly(bs: seq<BodyState>, src: Option<nat>, area: Rect, zList: Option<seq<int>>, n: nat)
    requires n <= |bs|
    ensures forall k :: 0 <= k < n ==> (k in CandidatesUpTo(bs, src, area, zList, n) <==> Candidate(bs, src, area, zList, k))
  {
    if n > 0 {
      CandidatesExactly(bs, src, area, zList, n - 1);
      var c := CandidatesUpTo(bs, src, area, zList, n - 1);
      assert n - 1 !in c;
      if Candidate(bs, src, area, zList, n - 1) {
        assert CandidatesUpTo(bs, src, area, zList, n) == c + [n - 1];
      }
    }
  }

  /** The candidates keep the order of the body list. */
  lemma {:induction false} CandidatesInOrder(bs: seq<BodyState>, src: Option<nat>, area: Rect, zList: Option<seq<int>>, n: nat)
    requires n <= |bs|
    ensures Increasing(CandidatesUpTo(bs, src, area, zList, n))
  {
    if n > 0 {
      CandidatesInOrder(bs, src, area, zList, n - 1);
      var prev := CandidatesUpTo(bs, src, area, zList, n - 1);
      if Candidate(bs, src, area, zList, n - 1) {
        var c := prev + [n - 1];
        assert CandidatesUpTo(bs, src, area, zList, n) == c;
        forall p, q | 0 <= p < q < |c| ensures c[p] < c[q] {
          if q == |prev| {
            assert c[q] == n - 1;
            assert c[p] == prev[p] < n - 1;
          } else {
            assert c[p] == prev[p] && c[q] == prev[q];
            assert prev[p] < prev[q];
          }
        }
      }
    }
  }

  /** One edge of a body, tagged with the body's position in the list. */
  datatype Line = Line(a: Vec, b: Vec, body: nat)

  /** The four edges `Trace` adds for a body with bounds `r`: top, left,
      right, bottom. */
  function Edges(r: Rect, k: nat): seq<Line> {
    var l, t, rt, bt := r.Left() as real, r.Top() as real, r.Right() as real, r.Bottom() as real;
    [Line(Vec(l, t), Vec(rt, t), k), Line(Vec(l, t), Vec(l, bt), k),
     Line(Vec(rt, t), Vec(rt, bt), k), Line(Vec(l, bt), Vec(rt, bt), k)]
  }

  /** The edges of the candidates `cand`, in candidate order. */
  function LinesOf(bs: seq<BodyState>, cand: seq<nat>): (ls: seq<Line>)
    requires forall p :: 0 <= p < |cand| ==> cand[p] < |bs|
    ensures |ls| == 4 * |cand|
  {
    if cand == [] then []
    else
      var k := cand[|cand| - 1];
      LinesOf(bs, cand[..|cand| - 1]) + Edges(bs[k].bounds, k)
  }

  /** The `p`-th candidate's edges are lines `4p` to `4p + 3`, in the order
      top, left, right, bottom. */
  lemma {:induction false} LinesLayout(bs: seq<BodyState>, cand: seq<nat>)
    requires forall p :: 0 <= p < |cand| ==> cand[p] < |bs|
    ensures forall p :: 0 <= p < |cand| ==> LinesOf(bs, cand)[4 * p .. 4 * p + 4] == Edges(bs[cand[p]].bounds, cand[p])
  {
    if cand != [] {
      var init := cand[..|cand| - 1];
      LinesLayout(bs, init);
      var ls := LinesOf(bs, cand);
      var ls0 := LinesOf(bs, init);
      assert ls == ls0 + Edges(bs[cand[|cand| - 1]].bounds, cand[|cand| - 1]);
      forall p | 0 <= p < |cand|
        ensures ls[4 * p .. 4 * p + 4] == Edges(bs[cand[p]].bounds, cand[p])
      {
        if p < |init| {
          assert cand[p] == init[p];
          assert ls[4 * p .. 4 * p + 4] == ls0[4 * p .. 4 * p + 4];
        } else {
          assert ls[4 * p .. 4 * p + 4] == ls[|ls0|..];
        }
      }
    }
  }

  /** Every edge belongs to one of the candidates. */
  lemma {:induction false} LinesBodies(bs: seq<BodyState>, cand: seq<nat>)
    requires forall p :: 0 <= p < |cand| ==> cand[p] < |bs|
    ensures forall j :: 0 <= j < |LinesOf(bs, cand)| ==> LinesOf(bs, cand)[j].body in cand
  {
    if cand != [] {
      var init := cand[..|cand| - 1];
      LinesBodies(bs, init);
      var ls := LinesOf(bs, cand);
      var ls0 := LinesOf(bs, init);
      assert ls == ls0 + Edges(bs[cand[|cand| - 1]].bounds, cand[|cand| - 1]);
      forall j | 0 <= j < |ls| ensures ls[j].body in cand {
        if j < |ls0| {
          assert ls[j] == ls0[j];
          var p :| 0 <= p < |init| && init[p] == ls0[j].body;
          assert cand[p] == init[p];
        } else {
          assert ls[j].body == cand[|cand| - 1];
        }
      }
    }
  }

  /** A point where the ray crosses an edge, its distance from the source,
      and the edge's body. */
  datatype Crossing = Crossing(p: Vec, distance: real, body: nat)

  /** The crossings of the ray from `source` to `far` with the lines `ls`,
      in line order; a line the ray misses gives none. */
  function CrossingsOf(ls: seq<Line>, source: Vec, far: Vec, ops: FloatOps): (ps: seq<Crossing>)
    ensures |ps| <= |ls|
  {
    if ls == [] then []
    else
      var ps := CrossingsOf(ls[..|ls| - 1], source, far, ops);
      var l := ls[|ls| - 1];
      match ops.intersectLines(source, far, l.a, l.b)
      case None => ps
      case Some(p) => ps + [Crossing(p, ops.distance(source, p), l.body)]
  }

  /** Each crossing is where the ray meets one of the lines, at the distance
      `Vector2.Distance` gives, and it carries that line's body. */
  lemma {:induction false} CrossingsSound(ls: seq<Line>, source: Vec, far: Vec, ops: FloatOps)
    ensures forall c :: c in CrossingsOf(ls, source, far, ops) ==>
      c.distance == ops.distance(source, c.p) &&
      exists l :: l in ls && l.body == c.body && ops.intersectLines(source, far, l.a, l.b) == Some(c.p)
  {
    if ls != [] {
      var init := ls[..|ls| - 1];
      CrossingsSound(init, source, far, ops);
      forall l | l in init ensures l in ls {
        var j :| 0 <= j < |init| && init[j] == l;
        assert ls[j] == l;
      }
    }
  }

  /** A line the ray meets always gives a crossing. */
  lemma {:induction false} CrossingsComplete(ls: seq<Line>, source: Vec, far: Vec, ops: FloatOps)
    ensures forall j :: 0 <= j < |ls| && ops.intersectLines(source, far, ls[j].a, ls[j].b).Some? ==>
      var p := ops.intersectLines(source, far, ls[j].a, ls[j].b).value;
      Crossing(p, ops.distance(source, p), ls[j].body) in CrossingsOf(ls, source, far, ops)
  {
    if ls != [] {
      var init := ls[..|ls| - 1];
      CrossingsComplete(init, source, far, ops);
      forall j | 0 <= j < |init| ensures ls[j] == init[j] { }
    }
  }

  /** `m` is the crossing the loop of `Trace` keeps: one of least distance,
      and the first such, since only a strictly smaller distance replaces
      the current choice. */
  predicate FirstNearest(ps: seq<Crossing>, m: nat) {
    m < |ps|
    && (forall j :: 0 <= j < |ps| ==> ps[m].distance <= ps[j].distance)
    && (forall j :: 0 <= j < m ==> ps[m].distance < ps[j].distance)
  }

  /** The choice is determined by the list of crossings. */
  lemma FirstNearestUnique(ps: seq<Crossing>, m: nat, m': nat)
    requires FirstNearest(ps, m) && FirstNearest(ps, m')
    ensures m == m'
  {
    assert ps[m].distance == ps[m'].distance;
  }

  /** The position of the first crossing of least distance. */
  function NearestIndex(ps: seq<Crossing>): (m: nat)
    requires ps != []
    ensures FirstNearest(ps, m)
  {
    if |ps| == 1 then 0
    else
      var m := NearestIndex(ps[..|ps| - 1]);
      assert forall j :: 0 <= j < |ps| - 1 ==> ps[..|ps| - 1][j] == ps[j];
      if ps[|ps| - 1].distance < ps[m].distance then |ps| - 1 else m
  }

  /** The nearest-point loop of `Trace`. */
  method Nearest(ps: seq<Crossing>) returns (m: nat)
    requires ps != []
    ensures FirstNearest(ps, m) && m == NearestIndex(ps)
  {
    m := 0;
    var j := 0;
    while j < |ps|
      invariant 0 <= j <= |ps| && m < |ps| && (j == 0 ==> m == 0) && (j > 0 ==> m < j)
      invariant forall i :: 0 <= i < j ==> ps[m].distance <= ps[i].distance
      invariant forall i :: 0 <= i < m ==> ps[m].distance < ps[i].distance
    {
      if ps[j].distance < ps[m].distance {
        m := j;
      }
      j := j + 1;
    }
    FirstNearestUnique(ps, m, NearestIndex(ps));
  }

  /** The position of the ray's source body in the world's list, if it is there. */
  ghost function SourceIndex(w: World, sb: Body?): Option<nat>
    reads w
  {
    if sb != null && sb in w.index && w.index[sb] < |w.bodies| && w.bodies[w.index[sb]] == sb
    then Some(w.index[sb])
    else None
  }

  /** The ray tracer, attached to `world`. */
  class RayTracer {
    var source: Vec
    var sourceBody: Body?
    var hit: Vec
    var direction: real
    var radius: int
    var zDiscardList: Option<seq<int>>
    var world: World

    /** `RayTracer(World, Source, Radius, ZDiscardList)`; the shorter
        constructors leave `Source` at zero, `Radius` at 0 and the list
        null, so they are this one with those arguments. */
    constructor (world: World, source: Vec, radius: int, zDiscardList: Option<seq<int>>)
      ensures this.world == world && this.source == source && this.radius == radius
      ensures this.zDiscardList == zDiscardList && sourceBody == null
      ensures hit == Zero && direction == 0.0
    {
      this.world := world;
      this.source := source;
      this.radius := radius;
      this.zDiscardList := zDiscardList;
      sourceBody := null;
      hit := Zero;
      direction := 0.0;
    }

    /** `ZDiscard(Z, ZList)`. */
    static method ZDiscard(z: int, zList: Option<seq<int>>) returns (r: bool)
      ensures r == Discarded(z, zList)
    {
      if zList.Some? {
        var list := zList.value;
        var i := 0;
        while i < |list|
          invariant 0 <= i <= |list|
          invariant z !in list[..i]
        {
          if list[i] == z {
            return true;
          }
          assert list[..i + 1] == list[..i] + [list[i]];
          i := i + 1;
        }
        assert list[..i] == list;
      }
      return false;
    }

    /** The swaps and the widening of `ComputeRayArea`, on the two ends of the ray. */
    static method AreaOf(a: Vec, b: Vec, dir: real) returns (area: Rect)
      ensures area == RayArea(a, b, dir)
    {
      var a, b := a, b;
      var swap := Zero;
      if a.x > b.x {
        swap := swap.(x := b.x);
        b := b.(x := a.x);
        a := a.(x := swap.x);
      }
      if a.y > b.y {
        swap := swap.(y := b.y);
        b := b.(y := a.y);
        a := a.(y := swap.y);
      }
      var d := Trunc(dir);
      if d == 0 || d == 180 {
        a := a.(y := a.y - 1.0);
        b := b.(y := b.y + 1.0);
      } else if d == 90 || d == 270 {
        a := a.(x := a.x - 1.0);
        b := b.(x := b.x + 1.0);
      }
      area := Rect(Trunc(a.x), Trunc(a.y), Trunc(b.x - a.x), Trunc(b.y - a.y));
    }

    /** `ComputeRayArea`: the far end of the ray becomes `Hit`. */
    method ComputeRayArea(ops: FloatOps) returns (area: Rect)
      modifies this
      ensures hit == ops.move(source, radius as real, Abs(direction))
      ensures area == RayArea(source, hit, direction)
      ensures world.States() == old(world.States())
      ensures source == old(source) && sourceBody == old(sourceBody) && direction == old(direction)
      ensures radius == old(radius) && zDiscardList == old(zDiscardList) && world == old(world)
    {
      var far := ops.move(source, radius as real, if direction < 0.0 then -direction else direction);
      area := AreaOf(source, far, direction);
      hit := far;
    }

    /** `GetBodiesInArea(RayArea)`: the positions of the candidates. */
    method GetBodiesInArea(area: Rect) returns (cand: seq<nat>)
      requires world.Valid()
      ensures cand == Candidates(world.States(), SourceIndex(world, sourceBody), area, zDiscardList)
    {
      var bodies := world.bodies;
      StatesOfIndex(bodies);
      cand := [];
      var k := 0;
      while k < |bodies|
        invariant 0 <= k <= |bodies|
        invariant cand == CandidatesUpTo(world.States(), SourceIndex(world, sourceBody), area, zDiscardList, k)
      {
        var b := bodies[k];
        assert b == sourceBody <==> SourceIndex(world, sourceBody) == Some(k) by {
          if b == sourceBody {
            assert world.index[b] == k;
          }
        }
        var discarded := ZDiscard(b.z, zDiscardList);
        if b != sourceBody && b.enabled && !b.trigger && !discarded && Intersect(area, b.bounds) != Empty {
          cand := cand + [k];
        }
        k := k + 1;
      }
    }

    /** The edge list of `Trace`. */
    method GetLines(cand: seq<nat>) returns (lines: seq<Line>)
      requires forall p :: 0 <= p < |cand| ==> cand[p] < |world.bodies|
      ensures lines == LinesOf(world.States(), cand)
    {
      var bodies := world.bodies;
      StatesOfIndex(bodies);
      lines := [];
      var p := 0;
      while p < |cand|
        invariant 0 <= p <= |cand|
        invariant lines == LinesOf(world.States(), cand[..p])
      {
        var k := cand[p];
        var r := bodies[k].bounds;
        lines := lines + [Line(Vec(r.Left() as real, r.Top() as real), Vec(r.Right() as real, r.Top() as real), k)];
        lines := lines + [Line(Vec(r.Left() as real, r.Top() as real), Vec(r.Left() as real, r.Bottom() as real), k)];
        lines := lines + [Line(Vec(r.Right() as real, r.Top() as real), Vec(r.Right() as real, r.Bottom() as real), k)];
        lines := lines + [Line(Vec(r.Left() as real, r.Bottom() as real), Vec(r.Right() as real, r.Bottom() as real), k)];
        assert cand[..p + 1][..p] == cand[..p];
        p := p + 1;
      }
      assert cand[..p] == cand;
    }

    /** The crossing list of `Trace`, for the ray from `Source` to `Hit`. */
    method GetCrossings(lines: seq<Line>, ops: FloatOps) returns (points: seq<Crossing>)
      ensures points == CrossingsOf(lines, source, hit, ops)
    {
      points := [];
      var j := 0;
      while j < |lines|
        invariant 0 <= j <= |lines|
        invariant points == CrossingsOf(lines[..j], source, hit, ops)
      {
        var line := lines[j];
        var ret := ops.intersectLines(source, hit, line.a, line.b);
        if ret.Some? {
          points := points + [Crossing(ret.value, ops.distance(source, ret.value), line.body)];
        }
        assert lines[..j + 1][..j] == lines[..j];
        j := j + 1;
      }
      assert lines[..j] == lines;
    }

    /** The first half of `Trace`: the ray's far end becomes `Hit` and every
        crossing of the ray with an edge of a candidate body is collected. */
    method Probe(ops: FloatOps) returns (points: seq<Crossing>)
      requires world.Valid()
      modifies this
      ensures hit == ops.move(source, radius as real, Abs(direction))
      ensures world.States() == old(world.States())
      ensures source == old(source) && sourceBody == old(sourceBody) && direction == old(direction)
      ensures radius == old(radius) && zDiscardList == old(zDiscardList) && world == old(world)
      ensures points == CrossingsOf(LinesOf(world.States(), Candidates(world.States(), SourceIndex(world, sourceBody),
                                                                     RayArea(source, hit, direction), zDiscardList)),
                                    source, hit, ops)
    {
      var area := ComputeRayArea(ops);
      var cand := GetBodiesInArea(area);
      var lines := GetLines(cand);
      points := GetCrossings(lines, ops);
    }

    /** `Trace`: on a crossing, `Hit` becomes the nearest crossing point and
        its body is returned; with none, `null` is returned and `Hit` stays
        the far end of the ray. */
    method Trace(ops: FloatOps) returns (r: Body?)
      requires world.Valid()
      modifies this
      ensures source == old(source) && sourceBody == old(sourceBody) && direction == old(direction)
      ensures radius == old(radius) && zDiscardList == old(zDiscardList) && world == old(world)
      ensures var far := ops.move(source, radius as real, Abs(direction));
              var bs := old(world.States());
              var cand := Candidates(bs, SourceIndex(world, sourceBody), RayArea(source, far, direction), zDiscardList);
              var ps := CrossingsOf(LinesOf(bs, cand), source, far, ops);
              && (ps == [] ==> r == null && hit == far)
              && (ps != [] ==> var m := NearestIndex(ps);
                               hit == ps[m].p && ps[m].body < |world.bodies| && r == world.bodies[ps[m].body])
    {
      var points := Probe(ops);
      ghost var area := RayArea(source, hit, direction);
      if |points| > 0 {
        var m := Nearest(points);
        TraceHitsWorld(world.States(), SourceIndex(world, sourceBody), area, zDiscardList, source, hit, ops);
        r := world.bodies[points[m].body];
        hit := points[m].p;
      } else {
        r := null;
      }
    }
  }

  /** The body `Trace` hits passes the candidate test: it is not the source
      body, it is enabled and not a trigger, its `Z` is not discarded and it
      overlaps the ray area. */
  lemma TraceHitsCandidate(bs: seq<BodyState>, src: Option<nat>, area: Rect, zList: Option<seq<int>>,
                           source: Vec, far: Vec, ops: FloatOps)
    requires CrossingsOf(LinesOf(bs, Candidates(bs, src, area, zList)), source, far, ops) != []
    ensures var ps := CrossingsOf(LinesOf(bs, Candidates(bs, src, area, zList)), source, far, ops);
            var m := NearestIndex(ps);
            ps[m].body < |bs| && Candidate(bs, src, area, zList, ps[m].body)
  {
    var cand := Candidates(bs, src, area, zList);
    var ls := LinesOf(bs, cand);
    var ps := CrossingsOf(ls, source, far, ops);
    var m := NearestIndex(ps);
    CandidatesExactly(bs, src, area, zList, |bs|);
    LinesBodies(bs, cand);
    CrossingsSound(ls, source, far, ops);
    assert ps[m] in ps;
    var l :| l in ls && l.body == ps[m].body && ops.intersectLines(source, far, l.a, l.b) == Some(ps[m].p);
    var j :| 0 <= j < |ls| && ls[j] == l;
    assert ls[j].body in cand;
  }

  /** The body `Trace` hits is one of the world's bodies. */
  lemma TraceHitsWorld(bs: seq<BodyState>, src: Option<nat>, area: Rect, zList: Option<seq<int>>,
                       source: Vec, far: Vec, ops: FloatOps)
    requires CrossingsOf(LinesOf(bs, Candidates(bs, src, area, zList)), source, far, ops) != []
    ensures var ps := CrossingsOf(LinesOf(bs, Candidates(bs, src, area, zList)), source, far, ops);
            NearestIndex(ps) < |ps| && ps[NearestIndex(ps)].body < |bs|
  {
    TraceHitsCandidate(bs, src, area, zList, source, far, ops);
  }
}
