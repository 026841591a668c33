/** `World`: the box-physics simulator. One `Update` takes the bodies that
    are enabled and inside the work area, moves each movable one by gravity
    (when its ground sensor is free) and by its force, decays every force
    by half a unit, then for each other active body it now overlaps raises
    the collision callback and pushes the body out of the overlap.

    The bodies are objects the simulator changes in place; the value-level
    functions below say what one `Update` does to the sequence of their
    states, and the `World` class at the end is proved to do exactly that.
    The callbacks are recorded as events in the order they are raised. */
module PhysicsWorld {
  import opened Xna
  import opened MathTools
  import opened PhysicsBody
  import opened Sorting

  /** A callback raised during `Update`: `OnTriggerCollision(other)` or
      `OnCollision(other, other.Force, other.Direction)` of body `self`. */
  datatype Event =
    | TriggerCollision(self: nat, other: nat)
    | Collision(self: nat, other: nat, force: Vec, direction: real)

  /** The `GetActives` predicate. */
  predicate IsActive(s: BodyState, workArea: Rect) {
    s.enabled && Intersects(workArea, s.bounds)
  }

  /** The indices, among the first `n` bodies, of the active ones, in list
      order: `Bodies.Where(GetActives)`. */
  function ActivesUpTo(bs: seq<BodyState>, workArea: Rect, n: nat): (act: seq<nat>)
    requires n <= |bs|
    ensures IndexList(act, n)
    ensures forall p :: 0 <= p < |act| ==> IsActive(bs[act[p]], workArea)
    ensures forall k :: 0 <= k < n && IsActive(bs[k], workArea) ==> k in act
  {
    if n == 0 then []
    else
      var act := ActivesUpTo(bs, workArea, n - 1);
      if IsActive(bs[n - 1], workArea) then act + [n - 1] else act
  }

  /** The active indices keep the order of the body list. */
  lemma {:induction false} ActivesInOrder(bs: seq<BodyState>, workArea: Rect, n: nat)
    requires n <= |bs|
    ensures Increasing(ActivesUpTo(bs, workArea, n))
  {
    if n > 0 {
      ActivesInOrder(bs, workArea, n - 1);
      var prev := ActivesUpTo(bs, workArea, n - 1);
      if IsActive(bs[n - 1], workArea) {
        var act := prev + [n - 1];
        assert ActivesUpTo(bs, workArea, n) == act;
        forall p, q | 0 <= p < q < |act| ensures act[p] < act[q] {
          if q == |prev| {
            assert act[q] == n - 1;
            assert act[p] == prev[p] < n - 1;
          } else {
            assert act[p] == prev[p] && act[q] == prev[q];
            assert prev[p] < prev[q];
          }
        }
      }
    }
  }

  function Actives(bs: seq<BodyState>, workArea: Rect): seq<nat> {
    ActivesUpTo(bs, workArea, |bs|)
  }

  /** Body `q` holds up body `a`: it is another body, not a trigger, and
      `a`'s ground sensor overlaps it. */
  predicate Supports(bs: seq<BodyState>, a: nat, q: nat)
    requires a < |bs| && q < |bs|
  {
    q != a && !bs[q].trigger && Intersects(Sensor(bs[a]), bs[q].bounds)
  }

  /** Some of the first `n` actives holds up active body `i`. */
  predicate SensorHitUpTo(bs: seq<BodyState>, act: seq<nat>, i: nat, n: nat)
    requires IndexList(act, |bs|) && i < |act| && n <= |act|
  {
    n > 0 && (SensorHitUpTo(bs, act, i, n - 1) || Supports(bs, act[i], act[n - 1]))
  }

  /** `SensorCollide(actives, actives[i])`. */
  predicate SensorHit(bs: seq<BodyState>, act: seq<nat>, i: nat)
    requires IndexList(act, |bs|) && i < |act|
  {
    SensorHitUpTo(bs, act, i, |act|)
  }

  lemma {:induction false} SensorHitGrows(bs: seq<BodyState>, act: seq<nat>, i: nat, m: nat, n: nat)
    requires IndexList(act, |bs|) && i < |act| && m <= n <= |act|
    requires SensorHitUpTo(bs, act, i, m)
    ensures SensorHitUpTo(bs, act, i, n)
    decreases n - m
  {
    if m < n {
      SensorHitGrows(bs, act, i, m + 1, n);
    }
  }

  /** The ground sensor of active body `i` is blocked exactly when some other
      active body that is not a trigger overlaps it. */
  lemma {:induction false} SensorHitExists(bs: seq<BodyState>, act: seq<nat>, i: nat, n: nat)
    requires IndexList(act, |bs|) && i < |act| && n <= |act|
    ensures SensorHitUpTo(bs, act, i, n) <==> exists p :: 0 <= p < n && Supports(bs, act[i], act[p])
  {
    if n > 0 {
      SensorHitExists(bs, act, i, n - 1);
      if Supports(bs, act[i], act[n - 1]) {
        assert exists p :: 0 <= p < n && Supports(bs, act[i], act[p]) by {
          assert 0 <= n - 1 < n && Supports(bs, act[i], act[n - 1]);
        }
      }
    }
  }

  /** Gravity and force for active body `i`: a body that is neither fixed
      nor a trigger moves by gravity times the size of its weight when its
      sensor is free, then by its force. */
  function Integrated(bs: seq<BodyState>, act: seq<nat>, i: nat, gravity: Vec): BodyState
    requires IndexList(act, |bs|) && i < |act|
  {
    var b := bs[act[i]];
    if !b.fixed && !b.trigger then
      var b1 := if !SensorHit(bs, act, i) then WithLocation(b, Add(Location(b), Scale(gravity, Abs(b.weight)))) else b;
      WithLocation(b1, Add(Location(b1), b1.force))
    else b
  }

  /** One component of the force decay: half a unit toward zero, without a
      clamp at zero. */
  function DecayComponent(c: real): real {
    if c > 0.0 then c - 0.5 else if c < 0.0 then c + 0.5 else c
  }

  function Decay(f: Vec): Vec {
    Vec(DecayComponent(f.x), DecayComponent(f.y))
  }

  /** `GetCollide` with `checkBody` active body `i`: a different body
      (by `Id`) whose bounds overlap. */
  predicate Collides(bs: seq<BodyState>, a: nat, q: nat)
    requires a < |bs| && q < |bs|
  {
    bs[q].id != bs[a].id && Intersects(bs[a].bounds, bs[q].bounds)
  }

  /** The body indices of `actives.Where(GetCollide)` among the first `n`
      actives, in list order. */
  function PartnersUpTo(bs: seq<BodyState>, act: seq<nat>, i: nat, n: nat): (ps: seq<nat>)
    requires IndexList(act, |bs|) && i < |act| && n <= |act|
    ensures forall j :: 0 <= j < |ps| ==> ps[j] < |bs| && ps[j] in act && Collides(bs, act[i], ps[j])
  {
    if n == 0 then []
    else
      var ps := PartnersUpTo(bs, act, i, n - 1);
      if Collides(bs, act[i], act[n - 1]) then ps + [act[n - 1]] else ps
  }

  function Partners(bs: seq<BodyState>, act: seq<nat>, i: nat): (ps: seq<nat>)
    requires IndexList(act, |bs|) && i < |act|
    ensures forall j :: 0 <= j < |ps| ==> ps[j] < |bs|
  {
    PartnersUpTo(bs, act, i, |act|)
  }

  /** `Where(GetCollide)` misses no active body: every one of the first `n`
      actives that collides with active body `i` is a partner, and over an
      increasing active list the partners come in list order, each once. */
  lemma {:induction false} PartnersUpToComplete(bs: seq<BodyState>, act: seq<nat>, i: nat, n: nat)
    requires IndexList(act, |bs|) && i < |act| && n <= |act|
    ensures forall p :: 0 <= p < n && Collides(bs, act[i], act[p]) ==> act[p] in PartnersUpTo(bs, act, i, n)
    ensures Increasing(act) ==> Increasing(PartnersUpTo(bs, act, i, n))
    ensures Increasing(act) && n > 0 ==>
      forall j :: 0 <= j < |PartnersUpTo(bs, act, i, n)| ==> PartnersUpTo(bs, act, i, n)[j] <= act[n - 1]
  {
    if n > 0 {
      PartnersUpToComplete(bs, act, i, n - 1);
      var prev := PartnersUpTo(bs, act, i, n - 1);
      var ps := PartnersUpTo(bs, act, i, n);
      assert ps == prev || ps == prev + [act[n - 1]];
      if Increasing(act) {
        forall j | 0 <= j < |prev| ensures prev[j] < act[n - 1] {
          assert act[n - 2] < act[n - 1];
        }
        forall j | 0 <= j < |ps| ensures ps[j] <= act[n - 1] {
          if j < |prev| { assert ps[j] == prev[j]; }
        }
        forall p, q | 0 <= p < q < |ps| ensures ps[p] < ps[q] {
          if q < |prev| {
            assert ps[p] == prev[p] && ps[q] == prev[q];
          } else {
            assert ps[p] == prev[p];
          }
        }
      }
    }
  }

  /** The partners of active body `i` are exactly the active bodies that
      collide with it, in list order and each once. */
  lemma PartnersExactly(bs: seq<BodyState>, workArea: Rect, i: nat)
    requires i < |Actives(bs, workArea)|
    ensures forall q :: q in Partners(bs, Actives(bs, workArea), i) <==>
      q in Actives(bs, workArea) && Collides(bs, Actives(bs, workArea)[i], q)
    ensures Increasing(Partners(bs, Actives(bs, workArea), i))
  {
    var act := Actives(bs, workArea);
    ActivesInOrder(bs, workArea, |bs|);
    PartnersUpToComplete(bs, act, i, |act|);
    forall q | q in act && Collides(bs, act[i], q) ensures q in Partners(bs, act, i) {
      var p :| 0 <= p < |act| && act[p] == q;
    }
  }

  /** The callback body `a` raises for partner `b`: the trigger handler for
      a trigger partner when it is set, and otherwise the collision handler
      when that is set, with the partner's force and direction. */
  function EventFor(a: BodyState, b: BodyState, ops: FloatOps): seq<Event> {
    if b.trigger && a.hasOnTriggerCollision then [TriggerCollision(a.id, b.id)]
    else if a.hasOnCollision then [Collision(a.id, b.id, b.force, ops.getAngle(b.lastLocation, Location(b)))]
    else []
  }

  /** True when `ResponseCollision(a, b)` pushes `a`: the boxes overlap, `b`
      is not a trigger, and the `Z` coordinates agree unless `b` discards
      them. */
  predicate Responds(a: BodyState, b: BodyState) {
    Intersect(a.bounds, b.bounds) != Empty && !b.trigger && (b.zDiscard || a.z == b.z)
  }

  /** How far `ResponseCollision` moves `a` out of `b`. A flat overlap
      moves it down or up by the overlap's height, a tall one right or left
      by its width, and a square one by one diagonal step for each corner of
      `a` inside `b`. */
  function Shift(a: BodyState, b: Rect): Point {
    var i := Intersect(a.bounds, b);
    var w, h := i.width, i.height;
    if h < w then
      if i.Top() == a.bounds.Top() then Point(0, h)
      else if i.Bottom() == a.bounds.Bottom() then Point(0, -h)
      else Point(0, 0)
    else if h > w then
      if i.Left() == a.bounds.Left() then Point(w, 0)
      else if i.Right() == a.bounds.Right() then Point(-w, 0)
      else Point(0, 0)
    else
      var d1 := if PointInRect(LT(a), b) then Point(w, h) else Point(0, 0);
      var d2 := if PointInRect(RT(a), b) then Point(d1.x - w, d1.y + h) else d1;
      var d3 := if PointInRect(LB(a), b) then Point(d2.x + w, d2.y - h) else d2;
      if PointInRect(RB(a), b) then Point(d3.x - w, d3.y - h) else d3
  }

  /** The centre `ResponseCollision` moves `a` to: its own centre plus the
      shift, which is made of whole numbers. */
  function Corrected(a: BodyState, b: Rect): Vec {
    var sh := Shift(a, b);
    Add(Location(a), Vec(sh.x as real, sh.y as real))
  }

  /** `ResponseCollision(a, b)` for two different bodies: a movable `a` is
      moved to the corrected centre; then, fixed or not, when its sensor
      touches `b` its vertical force is cancelled. */
  function Respond(a: BodyState, b: BodyState): BodyState {
    if !Responds(a, b) then a
    else
      var a1 := if !a.fixed && !a.trigger then WithLocation(a, Corrected(a, b.bounds)) else a;
      if Intersects(Sensor(a1), b.bounds) then a1.(force := Vec(a1.force.x, 0.0)) else a1
  }

  /** The first `n` partners of body `k` in turn: the callback, then the
      response. */
  function PairsUpTo(bs: seq<BodyState>, k: nat, ps: seq<nat>, n: nat, ops: FloatOps): (r: (seq<BodyState>, seq<Event>))
    requires k < |bs| && n <= |ps| && forall j :: 0 <= j < |ps| ==> ps[j] < |bs|
    ensures |r.0| == |bs|
    decreases n, 0
  {
    if n == 0 then (bs, []) else PairAt(bs, k, ps, n - 1, ops)
  }

  /** The first `j` partners, then partner `j`: its callback and `k`'s
      response to it. */
  function PairAt(bs: seq<BodyState>, k: nat, ps: seq<nat>, j: nat, ops: FloatOps): (r: (seq<BodyState>, seq<Event>))
    requires k < |bs| && j < |ps| && forall j :: 0 <= j < |ps| ==> ps[j] < |bs|
    ensures |r.0| == |bs|
    decreases j, 1
  {
    var (s, e) := PairsUpTo(bs, k, ps, j, ops);
    var q := ps[j];
    var a := if k == q then s[k] else Respond(s[k], s[q]);
    (s[k := a], e + EventFor(s[k], s[q], ops))
  }

  /** The bodies once active body `i` has moved and its force has decayed. */
  function Moved(bs: seq<BodyState>, act: seq<nat>, i: nat, gravity: Vec): (s: seq<BodyState>)
    requires IndexList(act, |bs|) && i < |act|
    ensures |s| == |bs|
  {
    var b := Integrated(bs, act, i, gravity);
    bs[act[i] := b.(force := Decay(b.force))]
  }

  /** Everything `Update` does for active body `i`. */
  function StepBody(bs: seq<BodyState>, act: seq<nat>, i: nat, gravity: Vec, ops: FloatOps): (r: (seq<BodyState>, seq<Event>))
    requires IndexList(act, |bs|) && i < |act|
    ensures |r.0| == |bs|
  {
    var s := Moved(bs, act, i, gravity);
    var ps := Partners(s, act, i);
    PairsUpTo(s, act[i], ps, |ps|, ops)
  }

  /** The first `n` active bodies in turn. */
  function RunUpTo(bs: seq<BodyState>, act: seq<nat>, n: nat, gravity: Vec, ops: FloatOps): (r: (seq<BodyState>, seq<Event>))
    requires IndexList(act, |bs|) && n <= |act|
    ensures |r.0| == |bs|
    decreases n, 0
  {
    if n == 0 then (bs, []) else RunAt(bs, act, n - 1, gravity, ops)
  }

  /** The first `i` active bodies, then active body `i`. */
  function RunAt(bs: seq<BodyState>, act: seq<nat>, i: nat, gravity: Vec, ops: FloatOps): (r: (seq<BodyState>, seq<Event>))
    requires IndexList(act, |bs|) && i < |act|
    ensures |r.0| == |bs|
    decreases i, 2
  {
    var e := RunUpTo(bs, act, i, gravity, ops).1;
    var (s', e') := StepAfter(bs, act, i, gravity, ops);
    (s', e + e')
  }

  /** Active body `i`'s step, taken on the states the first `i` left. */
  function StepAfter(bs: seq<BodyState>, act: seq<nat>, i: nat, gravity: Vec, ops: FloatOps): (r: (seq<BodyState>, seq<Event>))
    requires IndexList(act, |bs|) && i < |act|
    ensures |r.0| == |bs|
    decreases i, 1
  {
    StepBody(RunUpTo(bs, act, i, gravity, ops).0, act, i, gravity, ops)
  }

  /** One more active body: the unfolding of `RunUpTo`. */
  lemma RunStep(bs: seq<BodyState>, act: seq<nat>, n: nat, gravity: Vec, ops: FloatOps,
                s: seq<BodyState>, e: seq<Event>)
    requires IndexList(act, |bs|) && n < |act|
    requires (s, e) == RunUpTo(bs, act, n, gravity, ops)
    ensures RunUpTo(bs, act, n + 1, gravity, ops) == (StepBody(s, act, n, gravity, ops).0, e + StepBody(s, act, n, gravity, ops).1)
  {
    assert RunUpTo(bs, act, n + 1, gravity, ops) == RunAt(bs, act, n, gravity, ops);
    assert StepAfter(bs, act, n, gravity, ops) == StepBody(s, act, n, gravity, ops);
  }

  /** `World.Update`: the new body states and the callbacks raised. */
  function StepWorld(bs: seq<BodyState>, gravity: Vec, workArea: Rect, enabled: bool, ops: FloatOps): (r: (seq<BodyState>, seq<Event>))
    ensures |r.0| == |bs|
  {
    if !enabled then (bs, [])
    else
      var act := Actives(bs, workArea);
      RunUpTo(bs, act, |act|, gravity, ops)
  }

  /** The fields `Update` never changes: only the bounds, the last location
      and the force of a body move. */
  predicate SameIdentity(a: BodyState, b: BodyState) {
    && a.id == b.id && a.enabled == b.enabled && a.weight == b.weight && a.fixed == b.fixed
    && a.trigger == b.trigger && a.z == b.z && a.zDiscard == b.zDiscard
    && a.hasOnCollision == b.hasOnCollision && a.hasOnTriggerCollision == b.hasOnTriggerCollision
    && a.hasOnHit == b.hasOnHit
  }

  /** `ResponseCollision` changes only the bounds, last location and force
      of `a`, and not the bounds of a fixed body or a trigger. */
  lemma RespondKeeps(a: BodyState, b: BodyState)
    ensures SameIdentity(Respond(a, b), a)
    ensures a.fixed || a.trigger ==> Respond(a, b).bounds == a.bounds
  {
    if Responds(a, b) {
      var a1 := if !a.fixed && !a.trigger then WithLocation(a, Corrected(a, b.bounds)) else a;
      assert SameIdentity(a1, a);
    }
  }

  /** One more partner: the unfolding of `PairsUpTo`. */
  lemma PairsStep(bs: seq<BodyState>, k: nat, ps: seq<nat>, n: nat, ops: FloatOps, s: seq<BodyState>, e: seq<Event>)
    requires k < |bs| && n < |ps| && forall j :: 0 <= j < |ps| ==> ps[j] < |bs|
    requires ps[n] != k && (s, e) == PairsUpTo(bs, k, ps, n, ops)
    ensures PairsUpTo(bs, k, ps, n + 1, ops) == (s[k := Respond(s[k], s[ps[n]])], e + EventFor(s[k], s[ps[n]], ops))
  {
  }

  /** Only body `k` changes while its partners are handled; it keeps its
      identity, and keeps its bounds when it is fixed or a trigger. */
  lemma {:induction false} PairsFrame(bs: seq<BodyState>, k: nat, ps: seq<nat>, n: nat, ops: FloatOps)
    requires k < |bs| && n <= |ps| && forall j :: 0 <= j < |ps| ==> ps[j] < |bs|
    ensures forall j :: 0 <= j < |bs| && j != k ==> PairsUpTo(bs, k, ps, n, ops).0[j] == bs[j]
    ensures SameIdentity(PairsUpTo(bs, k, ps, n, ops).0[k], bs[k])
    ensures bs[k].fixed || bs[k].trigger ==> PairsUpTo(bs, k, ps, n, ops).0[k].bounds == bs[k].bounds
  {
    if n > 0 {
      PairsFrame(bs, k, ps, n - 1, ops);
      var s := PairsUpTo(bs, k, ps, n - 1, ops).0;
      var q := ps[n - 1];
      var a := if k == q then s[k] else Respond(s[k], s[q]);
      RespondKeeps(s[k], s[q]);
      assert PairsUpTo(bs, k, ps, n, ops).0 == s[k := a];
    }
  }

  /** Only active body `i` changes in its step, with the same guarantees. */
  lemma StepBodyFrame(bs: seq<BodyState>, act: seq<nat>, i: nat, gravity: Vec, ops: FloatOps)
    requires IndexList(act, |bs|) && i < |act|
    ensures forall j :: 0 <= j < |bs| && j != act[i] ==> StepBody(bs, act, i, gravity, ops).0[j] == bs[j]
    ensures forall j :: 0 <= j < |bs| ==> SameIdentity(StepBody(bs, act, i, gravity, ops).0[j], bs[j])
    ensures bs[act[i]].fixed || bs[act[i]].trigger ==> StepBody(bs, act, i, gravity, ops).0[act[i]].bounds == bs[act[i]].bounds
  {
    var s := Moved(bs, act, i, gravity);
    var ps := Partners(s, act, i);
    PairsFrame(s, act[i], ps, |ps|, ops);
  }

  /** The pass for active body `i` changes only that body, keeps every
      identity, and keeps the bounds of a fixed or trigger body. */
  lemma StepAfterFrame(bs: seq<BodyState>, act: seq<nat>, i: nat, gravity: Vec, ops: FloatOps)
    requires IndexList(act, |bs|) && i < |act|
    ensures var s := RunUpTo(bs, act, i, gravity, ops).0;
      forall j :: 0 <= j < |bs| && j != act[i] ==> StepAfter(bs, act, i, gravity, ops).0[j] == s[j]
    ensures var s := RunUpTo(bs, act, i, gravity, ops).0;
      forall j :: 0 <= j < |bs| ==> SameIdentity(StepAfter(bs, act, i, gravity, ops).0[j], s[j])
    ensures var s := RunUpTo(bs, act, i, gravity, ops).0;
      s[act[i]].fixed || s[act[i]].trigger ==> StepAfter(bs, act, i, gravity, ops).0[act[i]].bounds == s[act[i]].bounds
  {
    var s := RunUpTo(bs, act, i, gravity, ops).0;
    assert StepAfter(bs, act, i, gravity, ops) == StepBody(s, act, i, gravity, ops);
    StepBodyFrame(s, act, i, gravity, ops);
  }

  /** After the first `n` passes, a body that is not among the first `n`
      actives is untouched. */
  lemma {:induction false} RunUntouched(bs: seq<BodyState>, act: seq<nat>, n: nat, gravity: Vec, ops: FloatOps)
    requires IndexList(act, |bs|) && n <= |act|
    ensures forall j :: 0 <= j < |bs| && j !in act[..n] ==> RunUpTo(bs, act, n, gravity, ops).0[j] == bs[j]
  {
    if n > 0 {
      RunUntouched(bs, act, n - 1, gravity, ops);
      var s' := StepAfter(bs, act, n - 1, gravity, ops).0;
      StepAfterFrame(bs, act, n - 1, gravity, ops);
      assert RunUpTo(bs, act, n, gravity, ops).0 == s';
      forall j | 0 <= j < |bs| && j !in act[..n]
        ensures s'[j] == bs[j]
      {
        var done, prev := act[..n], act[..n - 1];
        assert done[n - 1] == act[n - 1];
        forall p | 0 <= p < |prev| ensures prev[p] != j {
          assert prev[p] == done[p];
        }
      }
    }
  }

  /** After the first `n` passes every body keeps its identity, and a fixed
      or trigger body keeps its bounds. */
  lemma {:induction false} RunKeeps(bs: seq<BodyState>, act: seq<nat>, n: nat, gravity: Vec, ops: FloatOps)
    requires IndexList(act, |bs|) && n <= |act|
    ensures forall j :: 0 <= j < |bs| ==> SameIdentity(RunUpTo(bs, act, n, gravity, ops).0[j], bs[j])
    ensures forall j :: 0 <= j < |bs| && (bs[j].fixed || bs[j].trigger) ==> RunUpTo(bs, act, n, gravity, ops).0[j].bounds == bs[j].bounds
  {
    if n > 0 {
      RunKeeps(bs, act, n - 1, gravity, ops);
      var s := RunUpTo(bs, act, n - 1, gravity, ops).0;
      var s' := StepAfter(bs, act, n - 1, gravity, ops).0;
      StepAfterFrame(bs, act, n - 1, gravity, ops);
      assert RunUpTo(bs, act, n, gravity, ops).0 == s';
      forall j | 0 <= j < |bs|
        ensures SameIdentity(s'[j], bs[j])
        ensures bs[j].fixed || bs[j].trigger ==> s'[j].bounds == bs[j].bounds
      {
        assert SameIdentity(s'[j], s[j]) && SameIdentity(s[j], bs[j]);
      }
    }
  }

  /** `Update` changes only the bounds, last location and force of a body. */
  lemma StepWorldKeepsIdentity(bs: seq<BodyState>, gravity: Vec, workArea: Rect, enabled: bool, ops: FloatOps)
    ensures forall j :: 0 <= j < |bs| ==> SameIdentity(StepWorld(bs, gravity, workArea, enabled, ops).0[j], bs[j])
  {
    var act := Actives(bs, workArea);
    RunKeeps(bs, act, |act|, gravity, ops);
  }

  /** A disabled body, or one outside the work area, is left exactly as it
      was; so is every body when the world is disabled. */
  lemma StepWorldLeavesInactive(bs: seq<BodyState>, gravity: Vec, workArea: Rect, enabled: bool, ops: FloatOps)
    ensures forall j :: 0 <= j < |bs| && (!enabled || !IsActive(bs[j], workArea)) ==> StepWorld(bs, gravity, workArea, enabled, ops).0[j] == bs[j]
    ensures !enabled ==> StepWorld(bs, gravity, workArea, enabled, ops) == (bs, [])
  {
    var act := Actives(bs, workArea);
    RunUntouched(bs, act, |act|, gravity, ops);
    assert act[..|act|] == act;
  }

  /** Fixed bodies and triggers never move: neither gravity, nor their
      force, nor a collision response changes their bounds. */
  lemma StepWorldFixedStayPut(bs: seq<BodyState>, gravity: Vec, workArea: Rect, enabled: bool, ops: FloatOps)
    ensures forall j :: 0 <= j < |bs| && (bs[j].fixed || bs[j].trigger) ==> StepWorld(bs, gravity, workArea, enabled, ops).0[j].bounds == bs[j].bounds
  {
    var act := Actives(bs, workArea);
    RunKeeps(bs, act, |act|, gravity, ops);
  }

  /** The ids of the active bodies. */
  ghost function ActiveIds(bs: seq<BodyState>, workArea: Rect): set<nat> {
    set j | 0 <= j < |bs| && IsActive(bs[j], workArea) :: bs[j].id
  }

  /** The callbacks raised while handling body `k`'s partners go from body
      `k` to one of its partners, never to itself. */
  lemma {:induction false} PairsEvents(bs: seq<BodyState>, k: nat, ps: seq<nat>, n: nat, ops: FloatOps)
    requires k < |bs| && n <= |ps| && forall j :: 0 <= j < |ps| ==> ps[j] < |bs| && bs[ps[j]].id != bs[k].id
    ensures forall e :: e in PairsUpTo(bs, k, ps, n, ops).1 ==>
      e.self == bs[k].id && e.other != e.self && exists j :: 0 <= j < |ps| && e.other == bs[ps[j]].id
  {
    if n > 0 {
      PairsEvents(bs, k, ps, n - 1, ops);
      PairsFrame(bs, k, ps, n - 1, ops);
      var s := PairsUpTo(bs, k, ps, n - 1, ops).0;
      assert s[ps[n - 1]] == bs[ps[n - 1]];
    }
  }

  /** The callbacks of active body `i`'s step go from it to another
      active body. */
  lemma StepBodyEvents(bs: seq<BodyState>, act: seq<nat>, i: nat, gravity: Vec, ops: FloatOps)
    requires IndexList(act, |bs|) && i < |act|
    ensures forall e :: e in StepBody(bs, act, i, gravity, ops).1 ==>
      e.self == bs[act[i]].id && e.other != e.self && exists q :: q in act && e.other == bs[q].id
  {
    var k := act[i];
    var b := Integrated(bs, act, i, gravity);
    assert SameIdentity(b, bs[k]);
    var s := bs[k := b.(force := Decay(b.force))];
    var ps := Partners(s, act, i);
    assert forall j :: 0 <= j < |ps| ==> s[ps[j]].id != s[k].id;
    PairsEvents(s, k, ps, |ps|, ops);
    forall e | e in StepBody(bs, act, i, gravity, ops).1
      ensures e.self == bs[k].id && e.other != e.self && exists q :: q in act && e.other == bs[q].id
    {
      var j :| 0 <= j < |ps| && e.other == s[ps[j]].id;
      assert s[ps[j]].id == bs[ps[j]].id;
    }
  }

  /** The callbacks of the pass for active body `i` go from that body to a
      different active body. */
  lemma StepEventsActive(bs: seq<BodyState>, workArea: Rect, i: nat, gravity: Vec, ops: FloatOps)
    requires i < |Actives(bs, workArea)|
    ensures forall e :: e in StepAfter(bs, Actives(bs, workArea), i, gravity, ops).1 ==>
      e.self != e.other && e.self in ActiveIds(bs, workArea) && e.other in ActiveIds(bs, workArea)
  {
    var act := Actives(bs, workArea);
    RunKeeps(bs, act, i, gravity, ops);
    var s0 := RunUpTo(bs, act, i, gravity, ops).0;
    assert StepAfter(bs, act, i, gravity, ops) == StepBody(s0, act, i, gravity, ops);
    StepBodyEvents(s0, act, i, gravity, ops);
    forall e | e in StepBody(s0, act, i, gravity, ops).1
      ensures e.self != e.other && e.self in ActiveIds(bs, workArea) && e.other in ActiveIds(bs, workArea)
    {
      var k := act[i];
      assert SameIdentity(s0[k], bs[k]);
      var q :| q in act && e.other == s0[q].id;
      assert SameIdentity(s0[q], bs[q]);
    }
  }

  /** Every callback of `Update` goes from one active body to a different
      active body. */
  lemma {:induction false} RunEvents(bs: seq<BodyState>, workArea: Rect, n: nat, gravity: Vec, ops: FloatOps)
    requires n <= |Actives(bs, workArea)|
    ensures forall e :: e in RunUpTo(bs, Actives(bs, workArea), n, gravity, ops).1 ==>
      e.self != e.other && e.self in ActiveIds(bs, workArea) && e.other in ActiveIds(bs, workArea)
  {
    var act := Actives(bs, workArea);
    if n > 0 {
      RunEvents(bs, workArea, n - 1, gravity, ops);
      StepEventsActive(bs, workArea, n - 1, gravity, ops);
      assert RunUpTo(bs, act, n, gravity, ops) == RunAt(bs, act, n - 1, gravity, ops);
    }
  }

  lemma StepWorldEvents(bs: seq<BodyState>, gravity: Vec, workArea: Rect, enabled: bool, ops: FloatOps)
    ensures forall e :: e in StepWorld(bs, gravity, workArea, enabled, ops).1 ==>
      e.self != e.other && e.self in ActiveIds(bs, workArea) && e.other in ActiveIds(bs, workArea)
  {
    if enabled {
      RunEvents(bs, workArea, |Actives(bs, workArea)|, gravity, ops);
    }
  }

  /** Gravity and force move a movable body's centre in two truncating
      steps: by gravity times the size of its weight only when its sensor is
      free, then by its force; its size is kept. A fixed body or a trigger
      does not move. With a whole-number gravity step and force, the corner
      moves by exactly their sum. */
  lemma IntegratedShift(bs: seq<BodyState>, act: seq<nat>, i: nat, gravity: Vec)
    requires IndexList(act, |bs|) && i < |act|
    ensures bs[act[i]].fixed || bs[act[i]].trigger ==> Integrated(bs, act, i, gravity) == bs[act[i]]
    ensures Integrated(bs, act, i, gravity).bounds.width == bs[act[i]].bounds.width
    ensures Integrated(bs, act, i, gravity).bounds.height == bs[act[i]].bounds.height
    ensures !bs[act[i]].fixed && !bs[act[i]].trigger && SensorHit(bs, act, i) ==>
      Location(Integrated(bs, act, i, gravity)) ==
        Vec(Trunc(Location(bs[act[i]]).x + bs[act[i]].force.x) as real,
            Trunc(Location(bs[act[i]]).y + bs[act[i]].force.y) as real)
    ensures !bs[act[i]].fixed && !bs[act[i]].trigger && !SensorHit(bs, act, i) ==>
      Location(Integrated(bs, act, i, gravity)) ==
        Vec(Trunc(Trunc(Location(bs[act[i]]).x + Scale(gravity, Abs(bs[act[i]].weight)).x) as real + bs[act[i]].force.x) as real,
            Trunc(Trunc(Location(bs[act[i]]).y + Scale(gravity, Abs(bs[act[i]].weight)).y) as real + bs[act[i]].force.y) as real)
    ensures !bs[act[i]].fixed && !bs[act[i]].trigger &&
            Integral(Scale(gravity, Abs(bs[act[i]].weight))) && Integral(bs[act[i]].force) ==>
      Integrated(bs, act, i, gravity).bounds ==
        (if SensorHit(bs, act, i)
         then bs[act[i]].bounds.(x := bs[act[i]].bounds.x + bs[act[i]].force.x.Floor,
                                 y := bs[act[i]].bounds.y + bs[act[i]].force.y.Floor)
         else bs[act[i]].bounds.(x := bs[act[i]].bounds.x + Scale(gravity, Abs(bs[act[i]].weight)).x.Floor + bs[act[i]].force.x.Floor,
                                 y := bs[act[i]].bounds.y + Scale(gravity, Abs(bs[act[i]].weight)).y.Floor + bs[act[i]].force.y.Floor))
  {
    var s := bs[act[i]];
    if !s.fixed && !s.trigger {
      var g := Scale(gravity, Abs(s.weight));
      var f := s.force;
      var s1 := if !SensorHit(bs, act, i) then WithLocation(s, Add(Location(s), g)) else s;
      assert s1.force == f;
      if !SensorHit(bs, act, i) {
        WithLocationThenLocation(s, Add(Location(s), g));
      }
      WithLocationThenLocation(s1, Add(Location(s1), f));
      if Integral(g) && Integral(f) {
        if SensorHit(bs, act, i) {
          WithLocationShift(s, f.x.Floor, f.y.Floor);
        } else {
          WithLocationShift(s, g.x.Floor, g.y.Floor);
          assert Add(Location(s), g) == Add(Location(s), Vec(g.x.Floor as real, g.y.Floor as real));
          WithLocationShift(s1, f.x.Floor, f.y.Floor);
        }
      }
    }
  }

  /** The decay moves each force component half a unit toward zero; a
      component smaller than half a unit overshoots to the other sign, since
      there is no clamp. */
  lemma DecayHalfUnit(c: real)
    ensures c >= 0.5 ==> 0.0 <= DecayComponent(c) < c
    ensures c <= -0.5 ==> c < DecayComponent(c) <= 0.0
    ensures 0.0 < c < 0.5 ==> DecayComponent(c) < 0.0
    ensures -0.5 < c < 0.0 ==> DecayComponent(c) > 0.0
    ensures DecayComponent(c) == 0.0 <==> c == 0.0 || c == 0.5 || c == -0.5
  {
  }

  /** `ResponseCollision` does nothing when the boxes do not overlap, when
      `b` is a trigger, or when the `Z` coordinates differ and `b` does not
      discard them. */
  lemma RespondNoOp(a: BodyState, b: BodyState)
    requires Intersect(a.bounds, b.bounds) == Empty || b.trigger || (!b.zDiscard && a.z != b.z)
    ensures Respond(a, b) == a
  {
  }

  /** A movable `a` is moved by exactly the shift, keeping its size. */
  lemma RespondMoves(a: BodyState, b: BodyState)
    requires Responds(a, b) && !a.fixed && !a.trigger
    ensures Respond(a, b).bounds == a.bounds.(x := a.bounds.x + Shift(a, b.bounds).x, y := a.bounds.y + Shift(a, b.bounds).y)
  {
    var sh := Shift(a, b.bounds);
    WithLocationShift(a, sh.x, sh.y);
  }

  /** A flat overlap pushes a movable `a` vertically and a tall one
      horizontally, by the overlap's size, out of `b` when `b` does not
      reach past `a` on the far side. */
  lemma RespondPushesOut(a: BodyState, b: BodyState)
    requires Responds(a, b) && !a.fixed && !a.trigger
    ensures var i := Intersect(a.bounds, b.bounds);
            var r := Respond(a, b).bounds;
            && r.width == a.bounds.width && r.height == a.bounds.height
            && (i.height < i.width && i.Top() == a.bounds.Top() && b.bounds.Bottom() <= a.bounds.Bottom() ==>
                  r == a.bounds.(y := b.bounds.Bottom()) && !Intersects(r, b.bounds))
            && (i.height < i.width && i.Top() != a.bounds.Top() && b.bounds.Bottom() >= a.bounds.Bottom() ==>
                  r.x == a.bounds.x && r.Bottom() == b.bounds.Top() && !Intersects(r, b.bounds))
            && (i.height > i.width && i.Left() == a.bounds.Left() && b.bounds.Right() <= a.bounds.Right() ==>
                  r == a.bounds.(x := b.bounds.Right()) && !Intersects(r, b.bounds))
            && (i.height > i.width && i.Left() != a.bounds.Left() && b.bounds.Right() >= a.bounds.Right() ==>
                  r.y == a.bounds.y && r.Right() == b.bounds.Left() && !Intersects(r, b.bounds))
  {
    RespondMoves(a, b);
  }

  /** 1 when corner `c` of `a` lies in `b`, else 0. */
  function CornerIn(c: Vec, b: Rect): int {
    if PointInRect(c, b) then 1 else 0
  }

  /** A flat overlap moves a movable `a` only vertically: down by its
      height when it covers `a`'s top edge, else up by its height when it
      covers the bottom edge, and not at all when it covers neither. */
  lemma RespondFlat(a: BodyState, b: BodyState)
    requires Responds(a, b) && !a.fixed && !a.trigger
    requires Intersect(a.bounds, b.bounds).height < Intersect(a.bounds, b.bounds).width
    ensures var i := Intersect(a.bounds, b.bounds);
            var r := Respond(a, b).bounds;
            && r.x == a.bounds.x
            && (i.Top() == a.bounds.Top() ==> r.y == a.bounds.y + i.height)
            && (i.Top() != a.bounds.Top() && i.Bottom() == a.bounds.Bottom() ==> r.y == a.bounds.y - i.height)
            && (r.y == a.bounds.y <==> i.Top() != a.bounds.Top() && i.Bottom() != a.bounds.Bottom())
  {
    RespondMoves(a, b);
    ShiftFlat(a, b.bounds);
  }

  /** A tall overlap moves a movable `a` only horizontally: right by its
      width when it covers `a`'s left edge, else left by its width when it
      covers the right edge, and not at all when it covers neither. */
  lemma RespondTall(a: BodyState, b: BodyState)
    requires Responds(a, b) && !a.fixed && !a.trigger
    requires Intersect(a.bounds, b.bounds).height > Intersect(a.bounds, b.bounds).width
    ensures var i := Intersect(a.bounds, b.bounds);
            var r := Respond(a, b).bounds;
            && r.y == a.bounds.y
            && (i.Left() == a.bounds.Left() ==> r.x == a.bounds.x + i.width)
            && (i.Left() != a.bounds.Left() && i.Right() == a.bounds.Right() ==> r.x == a.bounds.x - i.width)
            && (r.x == a.bounds.x <==> i.Left() != a.bounds.Left() && i.Right() != a.bounds.Right())
  {
    RespondMoves(a, b);
    ShiftTall(a, b.bounds);
  }

  /** A square overlap adds up one diagonal push of the overlap's size per
      corner of `a` inside `b`: a single corner inside moves `a`
      diagonally, and opposite contributions cancel. */
  lemma RespondSquare(a: BodyState, b: BodyState)
    requires Responds(a, b) && !a.fixed && !a.trigger
    requires Intersect(a.bounds, b.bounds).height == Intersect(a.bounds, b.bounds).width
    ensures var i := Intersect(a.bounds, b.bounds);
            var r := Respond(a, b).bounds;
            && r.x == a.bounds.x + i.width * (CornerIn(LT(a), b.bounds) + CornerIn(LB(a), b.bounds)
                                            - CornerIn(RT(a), b.bounds) - CornerIn(RB(a), b.bounds))
            && r.y == a.bounds.y + i.height * (CornerIn(LT(a), b.bounds) + CornerIn(RT(a), b.bounds)
                                             - CornerIn(LB(a), b.bounds) - CornerIn(RB(a), b.bounds))
  {
    RespondMoves(a, b);
    ShiftSquare(a, b.bounds);
  }

  lemma ShiftFlat(a: BodyState, b: Rect)
    requires Intersect(a.bounds, b) != Empty
    requires Intersect(a.bounds, b).height < Intersect(a.bounds, b).width
    ensures var i := Intersect(a.bounds, b);
            && Shift(a, b).x == 0
            && (i.Top() == a.bounds.Top() ==> Shift(a, b).y == i.height)
            && (i.Top() != a.bounds.Top() && i.Bottom() == a.bounds.Bottom() ==> Shift(a, b).y == -i.height)
            && (Shift(a, b).y == 0 <==> i.Top() != a.bounds.Top() && i.Bottom() != a.bounds.Bottom())
  {
    var i := Intersect(a.bounds, b);
    assert i.height > 0;
  }

  lemma ShiftTall(a: BodyState, b: Rect)
    requires Intersect(a.bounds, b) != Empty
    requires Intersect(a.bounds, b).height > Intersect(a.bounds, b).width
    ensures var i := Intersect(a.bounds, b);
            && Shift(a, b).y == 0
            && (i.Left() == a.bounds.Left() ==> Shift(a, b).x == i.width)
            && (i.Left() != a.bounds.Left() && i.Right() == a.bounds.Right() ==> Shift(a, b).x == -i.width)
            && (Shift(a, b).x == 0 <==> i.Left() != a.bounds.Left() && i.Right() != a.bounds.Right())
  {
    var i := Intersect(a.bounds, b);
    assert i.width > 0;
  }

  lemma ShiftSquare(a: BodyState, b: Rect)
    requires Intersect(a.bounds, b).height == Intersect(a.bounds, b).width
    ensures var i := Intersect(a.bounds, b);
            && Shift(a, b).x == i.width * (CornerIn(LT(a), b) + CornerIn(LB(a), b) - CornerIn(RT(a), b) - CornerIn(RB(a), b))
            && Shift(a, b).y == i.height * (CornerIn(LT(a), b) + CornerIn(RT(a), b) - CornerIn(LB(a), b) - CornerIn(RB(a), b))
  {
  }

  /** Landing: a movable body that sinks into a floor from above is lifted
      onto it, its sensor then touches the floor, and its vertical force is
      cancelled. */
  lemma RespondLands(a: BodyState, b: BodyState)
    requires Responds(a, b) && !a.fixed && !a.trigger
    requires var i := Intersect(a.bounds, b.bounds);
             i.height < i.width && i.Top() != a.bounds.Top() && b.bounds.Bottom() >= a.bounds.Bottom()
    requires b.bounds.x < a.bounds.Right() - 8 && a.bounds.x + 8 < b.bounds.Right()
    ensures Respond(a, b).bounds.Bottom() == b.bounds.Top()
    ensures Respond(a, b).force == Vec(a.force.x, 0.0)
  {
    RespondPushesOut(a, b);
    var a1 := WithLocation(a, Corrected(a, b.bounds));
    assert a1.bounds == Respond(a, b).bounds;
    SensorTouchesFloorOnly(a1, b.bounds);
  }

  /** The states of a list of bodies. */
  function StatesOf(xs: seq<Body>): (r: seq<BodyState>)
    reads xs
    ensures |r| == |xs|
  {
    if xs == [] then [] else [xs[0].State()] + StatesOf(xs[1..])
  }

  /** The `k`-th state is the state of the `k`-th body. */
  lemma StatesOfIndex(xs: seq<Body>)
    ensures forall k :: 0 <= k < |xs| ==> StatesOf(xs)[k] == xs[k].State()
  {
  }

  /** When every body but the `k`-th has the state `s` gives it, the
      states are `s` with the `k`-th replaced. */
  lemma StatesOfUpdate(xs: seq<Body>, s: seq<BodyState>, k: nat)
    requires |s| == |xs| && k < |xs|
    requires forall m :: 0 <= m < |xs| && m != k ==> xs[m].State() == s[m]
    ensures StatesOf(xs) == s[k := xs[k].State()]
  {
    StatesOfIndex(xs);
  }

  /** The simulator. */
  class World {
    var gravity: Vec
    var workArea: Rect
    var bodies: seq<Body>
    var enabled: bool
    var visible: bool
    var disposed: bool

    /** The position of each body in the list. */
    ghost var index: map<Body, nat>

    /** No body is in the list twice: each one is at the position `index`
        records for it. */
    ghost predicate Valid()
      reads this
    {
      forall i :: 0 <= i < |bodies| ==> bodies[i] in index && index[bodies[i]] == i
    }

    function States(): seq<BodyState>
      reads this, bodies
    {
      StatesOf(bodies)
    }

    constructor (gravity: Vec, workArea: Rect)
      ensures this.gravity == gravity && this.workArea == workArea
      ensures bodies == [] && enabled && !visible && !disposed
      ensures Valid()
    {
      this.gravity := gravity;
      this.workArea := workArea;
      bodies := [];
      index := map[];
      enabled := true;
      visible := false;
      disposed := false;
    }

    /** `Bodies.Add(body)` for a body not yet in the list. `List.Add` would
        accept a repeat; the model keeps the list free of repeats, which
        `Valid()` records and `Update` relies on. */
    method AddBody(b: Body)
      requires Valid() && b !in bodies
      modifies this
      ensures bodies == old(bodies) + [b] && Valid()
      ensures gravity == old(gravity) && workArea == old(workArea)
      ensures enabled == old(enabled) && visible == old(visible) && disposed == old(disposed)
    {
      index := index[b := |bodies|];
      bodies := bodies + [b];
    }

    /** The indices of the active bodies, in list order. */
    method GetActives() returns (act: seq<nat>)
      ensures act == Actives(States(), workArea)
    {
      StatesOfIndex(bodies);
      act := [];
      var k := 0;
      while k < |bodies|
        invariant 0 <= k <= |bodies|
        invariant act == ActivesUpTo(States(), workArea, k)
      {
        if bodies[k].enabled && Intersects(workArea, bodies[k].bounds) {
          act := act + [k];
        }
        k := k + 1;
      }
    }

    /** `SensorCollide(actives, actives[i])`. */
    method SensorCollide(act: seq<nat>, i: nat) returns (hit: bool)
      requires Valid() && IndexList(act, |bodies|) && i < |act|
      ensures hit == SensorHit(States(), act, i)
    {
      StatesOfIndex(bodies);
      var body := bodies[act[i]];
      var p := 0;
      while p < |act|
        invariant 0 <= p <= |act|
        invariant !SensorHitUpTo(States(), act, i, p)
      {
        var other := bodies[act[p]];
        assert other != body <==> act[p] != act[i];
        if other != body && !other.trigger && Intersects(Sensor(body.State()), other.bounds) {
          SensorHitGrows(States(), act, i, p + 1, |act|);
          return true;
        }
        p := p + 1;
      }
      return false;
    }

    /** `actives.Where(GetCollide)` with `checkBody` active body `i`: the
        indices of its partners. */
    method GetCollisions(act: seq<nat>, i: nat) returns (ps: seq<nat>)
      requires IndexList(act, |bodies|) && i < |act|
      ensures ps == Partners(States(), act, i)
    {
      StatesOfIndex(bodies);
      var checkBody := bodies[act[i]];
      ps := [];
      var p := 0;
      while p < |act|
        invariant 0 <= p <= |act|
        invariant ps == PartnersUpTo(States(), act, i, p)
      {
        var body := bodies[act[p]];
        if body.id != checkBody.id && Intersects(checkBody.bounds, body.bounds) {
          ps := ps + [act[p]];
        }
        p := p + 1;
      }
    }
  
    /** The corrected centre `ResponseCollision` computes for `a` against
        `b`, once it knows that `a` has to move. */
    method CorrectedLocation(a: Body, b: Body) returns (delta: Vec)
      ensures delta == Corrected(a.State(), b.bounds)
    {
      var sa := a.State();
      var intersection := Intersect(a.bounds, b.bounds);
      var w, h := intersection.width, intersection.height;
      var dx, dy := 0, 0;
      if h < w {
        if intersection.Top() == a.bounds.Top() {
          dy := dy + h;
        } else if intersection.Bottom() == a.bounds.Bottom() {
          dy := dy - h;
        }
      } else if h > w {
        if intersection.Left() == a.bounds.Left() {
          dx := dx + w;
        } else if intersection.Right() == a.bounds.Right() {
          dx := dx - w;
        }
      } else {
        if PointInRect(LT(sa), b.bounds) {
          dx, dy := dx + w, dy + h;
        }
        if PointInRect(RT(sa), b.bounds) {
          dx, dy := dx - w, dy + h;
        }
        if PointInRect(LB(sa), b.bounds) {
          dx, dy := dx + w, dy - h;
        }
        if PointInRect(RB(sa), b.bounds) {
          dx, dy := dx - w, dy - h;
        }
      }
      assert Point(dx, dy) == Shift(sa, b.bounds);
      delta := Add(Location(sa), Vec(dx as real, dy as real));
    }

    /** `ResponseCollision(a, b)`. */
    method ResponseCollision(a: Body, b: Body)
      modifies a
      ensures a.State() == if a == b then old(a.State()) else Respond(old(a.State()), old(b.State()))
    {
      if a != b {
        var intersection := Intersect(a.bounds, b.bounds);
        if intersection != Empty {
          if !b.trigger && (b.zDiscard || a.z == b.z) {
            var delta := CorrectedLocation(a, b);
            if !a.fixed && !a.trigger {
              a.SetLocation(delta);
            }
            if Intersects(Sensor(a.State()), b.bounds) {
              a.force := Vec(a.force.x, 0.0);
            }
          }
        }
      }
    }

    /** Gravity and force for active body `i`. */
    method Integrate(act: seq<nat>, i: nat)
      requires Valid() && IndexList(act, |bodies|) && i < |act|
      modifies bodies[act[i]]
      ensures bodies[act[i]].State() == Integrated(old(States()), act, i, gravity)
    {
      ghost var s0 := States();
      StatesOfIndex(bodies);
      var a := bodies[act[i]];
      ghost var b := s0[act[i]];
      if !a.fixed && !a.trigger {
        var hit := SensorCollide(act, i);
        var w := if a.weight < 0.0 then a.weight * -1.0 else a.weight;
        assert w == Abs(b.weight);
        if !hit {
          a.SetLocation(Add(Location(a.State()), Scale(gravity, w)));
        }
        ghost var b1 := if !SensorHit(s0, act, i) then WithLocation(b, Add(Location(b), Scale(gravity, Abs(b.weight)))) else b;
        assert a.State() == b1;
        a.SetLocation(Add(Location(a.State()), a.force));
      }
    }

    /** The callback `Update` raises on `a` for partner `b`, followed by
        `ResponseCollision(a, b)`. */
    method Collide(a: Body, b: Body, ops: FloatOps) returns (evs: seq<Event>)
      requires a != b
      modifies a
      ensures evs == EventFor(old(a.State()), old(b.State()), ops)
      ensures a.State() == Respond(old(a.State()), old(b.State()))
    {
      if b.trigger && a.hasOnTriggerCollision {
        evs := [TriggerCollision(a.id, b.id)];
      } else if a.hasOnCollision {
        evs := [Collision(a.id, b.id, b.force, ops.getAngle(b.lastLocation, Location(b.State())))];
      } else {
        evs := [];
      }
      ResponseCollision(a, b);
    }

    /** Body `k` against one partner `q`: the callback raised and the
        response, on the list of states. */
    method HandlePair(k: nat, q: nat, ops: FloatOps) returns (evs: seq<Event>)
      requires Valid() && k < |bodies| && q < |bodies| && q != k
      modifies bodies[k]
      ensures evs == EventFor(old(States())[k], old(States())[q], ops)
      ensures States() == old(States())[k := Respond(old(States())[k], old(States())[q])]
    {
      ghost var s0 := States();
      StatesOfIndex(bodies);
      var a, b := bodies[k], bodies[q];
      assert index[a] != index[b];
      evs := Collide(a, b, ops);
      forall m | 0 <= m < |bodies| && m != k ensures bodies[m].State() == s0[m] {
        assert index[bodies[m]] != index[a];
      }
      StatesOfUpdate(bodies, s0, k);
    }

    /** The inner loop of `Update`: body `k` against each of its partners in
        turn. */
    method HandlePartners(k: nat, ps: seq<nat>, ops: FloatOps) returns (evs: seq<Event>)
      requires Valid() && k < |bodies|
      requires forall j :: 0 <= j < |ps| ==> ps[j] < |bodies| && ps[j] != k
      modifies bodies[k]
      ensures (States(), evs) == PairsUpTo(old(States()), k, ps, |ps|, ops)
    {
      ghost var s0 := States();
      evs := [];
      var j := 0;
      while j < |ps|
        invariant 0 <= j <= |ps|
        invariant (States(), evs) == PairsUpTo(s0, k, ps, j, ops)
      {
        PairsStep(s0, k, ps, j, ops, States(), evs);
        var e := HandlePair(k, ps[j], ops);
        evs := evs + e;
        j := j + 1;
      }
    }

    /** Gravity, force and force decay for active body `i`. */
    method Advance(act: seq<nat>, i: nat)
      requires Valid() && IndexList(act, |bodies|) && i < |act|
      modifies bodies[act[i]]
      ensures States() == old(States())[act[i] := bodies[act[i]].State()]
      ensures bodies[act[i]].State() == Integrated(old(States()), act, i, gravity).(force := Decay(Integrated(old(States()), act, i, gravity).force))
    {
      ghost var s0 := States();
      StatesOfIndex(bodies);
      var k := act[i];
      var a := bodies[k];
      Integrate(act, i);
      ghost var b := a.State();
      var dx, dy := a.force.x, a.force.y;
      if dx > 0.0 { dx := dx - 0.5; } else if dx < 0.0 { dx := dx + 0.5; }
      if dy > 0.0 { dy := dy - 0.5; } else if dy < 0.0 { dy := dy + 0.5; }
      assert Vec(dx, dy) == Decay(b.force);
      a.force := Vec(dx, dy);
      assert a.State() == b.(force := Decay(b.force));
      forall m | 0 <= m < |bodies| && m != k ensures bodies[m].State() == s0[m] {
        assert index[bodies[m]] != index[a];
      }
      StatesOfUpdate(bodies, s0, k);
    }

    /** Everything `Update` does for active body `i`, after the first `i`
        were done starting from `s0` and raised `e0`. */
    method StepActive(act: seq<nat>, i: nat, ops: FloatOps, ghost s0: seq<BodyState>, ghost e0: seq<Event>) returns (evs: seq<Event>)
      requires Valid() && IndexList(act, |bodies|) && i < |act| && |s0| == |bodies|
      requires (States(), e0) == RunUpTo(s0, act, i, gravity, ops)
      modifies bodies
      ensures (States(), e0 + evs) == RunUpTo(s0, act, i + 1, gravity, ops)
    {
      ghost var s := States();
      Advance(act, i);
      var ps := GetCollisions(act, i);
      evs := HandlePartners(act[i], ps, ops);
      RunStep(s0, act, i, gravity, ops, s, e0);
    }

    /** `Update`: the bodies' new states and the callbacks raised, in order,
        are what `StepWorld` says. */
    method Update(ops: FloatOps) returns (events: seq<Event>)
      requires Valid()
      modifies bodies
      ensures Valid()
      ensures (States(), events) == StepWorld(old(States()), gravity, workArea, enabled, ops)
    {
      events := [];
      if !enabled {
        return;
      }
      ghost var s0 := States();
      var act := GetActives();
      ghost var cur := s0;
      var i := 0;
      while i < |act|
        invariant 0 <= i <= |act|
        invariant (cur, events) == RunUpTo(s0, act, i, gravity, ops)
        invariant States() == cur
      {
        var evs := StepActive(act, i, ops, s0, events);
        events := events + evs;
        cur := States();
        i := i + 1;
      }
    }

    /** `Dispose`: the first call empties the body list. */
    method Dispose()
      modifies this
      ensures disposed
      ensures bodies == if old(disposed) then old(bodies) else []
      ensures gravity == old(gravity) && workArea == old(workArea)
      ensures enabled == old(enabled) && visible == old(visible)
    {
      if !disposed {
        bodies := [];
        disposed := true;
      }
    }
  }
}
