/** `Explosion`: a force emitter with a location, a radius and a force. It
    pushes the movable bodies of its world that lie within the radius and
    raises their `OnHit`. Nothing blocks the blast: the occlusion test of
    the engine is disabled, so a body is reached as soon as it is close
    enough. */
module PhysicsExplosion {
  import opened Xna
  import opened MathTools
  import opened PhysicsBody
  import opened PhysicsWorld

  /** `OnHit(source, force, direction)`, raised on the body at position
      `body` in the world's list. */
  datatype HitEvent = HitEvent(body: nat, force: real, direction: real)

  /** The bodies an explosion looks at: enabled, not fixed, not triggers. */
  predicate Considered(s: BodyState) {
    s.enabled && !s.fixed && !s.trigger
  }

  /** The distance from the epicentre to the body's centre, cast to `int`. */
  function DistanceTo(s: BodyState, location: Vec, ops: FloatOps): int {
    Trunc(ops.distance(location, Location(s)))
  }

  /** The angle from the epicentre to the body's centre. */
  function DirectionTo(s: BodyState, location: Vec, ops: FloatOps): real {
    ops.getAngle(location, Location(s))
  }

  /** A body is reached when it is considered and no farther than `radius`. */
  predicate Affected(s: BodyState, location: Vec, radius: int, ops: FloatOps) {
    Considered(s) && DistanceTo(s, location, ops) <= radius
  }

  /** The force a reached body receives: minus the percentage that
      `distance - radius` is of the explosion's force, or 0 when the
      explosion has no positive force. */
  function Response(distance: int, radius: int, force: real): real {
    if force > 0.0 then Percent((distance - radius) as real, force).value * -1.0 else 0.0
  }

  /** The response falls off linearly from the epicentre: it is
      `(radius - distance) * 100 / force`, never negative inside the
      radius, and 0 at the edge or without a positive force. */
  lemma ResponseFormula(distance: int, radius: int, force: real)
    ensures force > 0.0 ==> Response(distance, radius, force) == (radius - distance) as real * 100.0 / force
    ensures force > 0.0 && distance <= radius ==> Response(distance, radius, force) >= 0.0
    ensures distance == radius ==> Response(distance, radius, force) == 0.0
    ensures force <= 0.0 ==> Response(distance, radius, force) == 0.0
  {
    if force > 0.0 {
      var p := Percent((distance - radius) as real, force).value;
      var q := (radius - distance) as real * 100.0 / force;
      assert q * force == (radius - distance) as real * 100.0;
      assert (-p) * force == (radius - distance) as real * 100.0;
      assert (-p - q) * force == 0.0;
    }
  }

  /** A closer body gets at least as strong a push. */
  lemma ResponseFallsOff(d1: int, d2: int, radius: int, force: real)
    requires d1 <= d2
    ensures Response(d1, radius, force) >= Response(d2, radius, force)
  {
    ResponseFormula(d1, radius, force);
    ResponseFormula(d2, radius, force);
    if force > 0.0 {
      assert (radius - d1) as real * 100.0 >= (radius - d2) as real * 100.0;
    }
  }

  /** The state a body has after the explosion: a reached body gets the
      response applied along the direction from the epicentre, when the
      force is positive; every other body is left as it was. */
  function Blasted(s: BodyState, location: Vec, radius: int, force: real, ops: FloatOps): BodyState {
    if Affected(s, location, radius, ops) && force > 0.0
    then WithForceToward(s, ops, Response(DistanceTo(s, location, ops), radius, force), DirectionTo(s, location, ops))
    else s
  }

  /** The `OnHit` the explosion raises on the body at position `k`: one for
      a reached body with a handler, whether or not a force was applied. */
  function HitOf(s: BodyState, k: nat, location: Vec, radius: int, force: real, ops: FloatOps): seq<HitEvent> {
    if Affected(s, location, radius, ops) && s.hasOnHit
    then [HitEvent(k, Response(DistanceTo(s, location, ops), radius, force), DirectionTo(s, location, ops))]
    else []
  }

  /** The states after the first `n` bodies have been visited. */
  function BlastUpTo(bs: seq<BodyState>, n: nat, location: Vec, radius: int, force: real, ops: FloatOps): (r: seq<BodyState>)
    ensures |r| == |bs|
  {
    seq(|bs|, i requires 0 <= i < |bs| => if i < n then Blasted(bs[i], location, radius, force, ops) else bs[i])
  }

  /** The `OnHit` events raised while visiting the first `n` bodies. */
  function HitsUpTo(bs: seq<BodyState>, n: nat, location: Vec, radius: int, force: real, ops: FloatOps): seq<HitEvent>
    requires n <= |bs|
  {
    if n == 0 then [] else HitsUpTo(bs, n - 1, location, radius, force, ops) + HitOf(bs[n - 1], n - 1, location, radius, force, ops)
  }

  /** Visiting body `k` replaces its state and nothing else. */
  lemma BlastStep(bs: seq<BodyState>, k: nat, location: Vec, radius: int, force: real, ops: FloatOps)
    requires k < |bs|
    ensures BlastUpTo(bs, k, location, radius, force, ops)[k] == bs[k]
    ensures BlastUpTo(bs, k, location, radius, force, ops)[k := Blasted(bs[k], location, radius, force, ops)]
            == BlastUpTo(bs, k + 1, location, radius, force, ops)
  {
  }

  /** `Explode` changes nothing but forces, and only those of reached
      bodies when the force is positive; a reached body's new force is the
      step from the point `response` units away towards the epicentre's
      direction back to its centre. */
  lemma BlastChangesOnlyForces(bs: seq<BodyState>, location: Vec, radius: int, force: real, ops: FloatOps, i: nat)
    requires i < |bs|
    ensures var r := BlastUpTo(bs, |bs|, location, radius, force, ops);
            && r[i] == bs[i].(force := r[i].force)
            && (r[i].force != bs[i].force ==> Affected(bs[i], location, radius, ops) && force > 0.0)
            && (Affected(bs[i], location, radius, ops) && force > 0.0 ==>
                  var here := Location(bs[i]);
                  var response := Response(DistanceTo(bs[i], location, ops), radius, force);
                  r[i].force == Sub(here, ops.move(here, Trunc(response) as real, DirectionTo(bs[i], location, ops))))
  {
  }

  /** Every event in `hs` is the `OnHit` of one of the first `n` bodies,
      and the bodies named come in list order, each at most once. */
  ghost predicate SoundHits(bs: seq<BodyState>, hs: seq<HitEvent>, n: nat, location: Vec, radius: int, force: real, ops: FloatOps)
    requires n <= |bs|
  {
    && (forall j :: 0 <= j < |hs| ==> hs[j].body < n && HitOf(bs[hs[j].body], hs[j].body, location, radius, force, ops) == [hs[j]])
    && (forall j, j' :: 0 <= j < j' < |hs| ==> hs[j].body < hs[j'].body)
  }

  /** The events of `Explode` are sound. */
  lemma {:induction false} HitsSound(bs: seq<BodyState>, n: nat, location: Vec, radius: int, force: real, ops: FloatOps)
    requires n <= |bs|
    ensures SoundHits(bs, HitsUpTo(bs, n, location, radius, force, ops), n, location, radius, force, ops)
  {
    if n > 0 {
      HitsSound(bs, n - 1, location, radius, force, ops);
      var prev := HitsUpTo(bs, n - 1, location, radius, force, ops);
      var last := HitOf(bs[n - 1], n - 1, location, radius, force, ops);
      var hs := prev + last;
      assert hs == HitsUpTo(bs, n, location, radius, force, ops);
      assert forall j :: |prev| <= j < |hs| ==> j == |prev| && hs[j] == last[0] && hs[j].body == n - 1 && last == [hs[j]];
      forall j | 0 <= j < |hs|
        ensures hs[j].body < n && HitOf(bs[hs[j].body], hs[j].body, location, radius, force, ops) == [hs[j]]
      {
        if j < |prev| {
          assert hs[j] == prev[j];
        }
      }
      forall j, j' | 0 <= j < j' < |hs| ensures hs[j].body < hs[j'].body {
        assert hs[j] == prev[j];
        if j' < |prev| {
          assert hs[j'] == prev[j'];
        }
      }
    }
  }

  /** Some event in `hs` is raised on the body at position `k`. */
  predicate Named(hs: seq<HitEvent>, k: nat) {
    exists j :: 0 <= j < |hs| && hs[j].body == k
  }

  /** Every reached body with a handler gets an event. */
  lemma {:induction false} HitsReachAll(bs: seq<BodyState>, n: nat, location: Vec, radius: int, force: real, ops: FloatOps)
    requires n <= |bs|
    ensures forall k :: 0 <= k < n && Affected(bs[k], location, radius, ops) && bs[k].hasOnHit ==>
              Named(HitsUpTo(bs, n, location, radius, force, ops), k)
  {
    if n > 0 {
      HitsReachAll(bs, n - 1, location, radius, force, ops);
      var prev := HitsUpTo(bs, n - 1, location, radius, force, ops);
      var hs := prev + HitOf(bs[n - 1], n - 1, location, radius, force, ops);
      assert hs == HitsUpTo(bs, n, location, radius, force, ops);
      forall k | 0 <= k < n && Affected(bs[k], location, radius, ops) && bs[k].hasOnHit
        ensures Named(hs, k)
      {
        if k < n - 1 {
          var j :| 0 <= j < |prev| && prev[j].body == k;
          assert hs[j].body == k;
        } else {
          assert hs[|prev|].body == k;
        }
      }
    }
  }

  /** The reached bodies with a handler are exactly those an event names. */
  lemma HitsExactly(bs: seq<BodyState>, location: Vec, radius: int, force: real, ops: FloatOps)
    ensures forall k :: 0 <= k < |bs| ==>
              (Affected(bs[k], location, radius, ops) && bs[k].hasOnHit <==> Named(HitsUpTo(bs, |bs|, location, radius, force, ops), k))
  {
    HitsReachAll(bs, |bs|, location, radius, force, ops);
    HitsSound(bs, |bs|, location, radius, force, ops);
    var hs := HitsUpTo(bs, |bs|, location, radius, force, ops);
    forall k | 0 <= k < |bs| && Named(hs, k) ensures Affected(bs[k], location, radius, ops) && bs[k].hasOnHit {
      var j :| 0 <= j < |hs| && hs[j].body == k;
      assert HitOf(bs[k], k, location, radius, force, ops) != [];
    }
  }

  /** An explosion with no positive force moves nothing. */
  lemma NoForceNoPush(bs: seq<BodyState>, location: Vec, radius: int, force: real, ops: FloatOps)
    requires force <= 0.0
    ensures BlastUpTo(bs, |bs|, location, radius, force, ops) == bs
  {
    var r := BlastUpTo(bs, |bs|, location, radius, force, ops);
    forall i | 0 <= i < |bs| ensures r[i] == bs[i] {
      BlastChangesOnlyForces(bs, location, radius, force, ops, i);
    }
  }

  /** The explosion, bound to `world`. */
  class Explosion {
    var location: Vec
    var radius: int
    var force: real
    var world: World

    /** `Explosion(World)`: the other properties keep their defaults. */
    constructor (world: World)
      ensures this.world == world && location == Zero && radius == 0 && force == 0.0
    {
      this.world := world;
      location := Zero;
      radius := 0;
      force := 0.0;
    }

    /** `Explosion(World, Location, Radius, Force)`. */
    constructor WithParams(world: World, location: Vec, radius: int, force: real)
      ensures this.world == world && this.location == location && this.radius == radius && this.force == force
    {
      this.world := world;
      this.location := location;
      this.radius := radius;
      this.force := force;
    }

    /** One pass of `Explode`'s loop: the body at position `k`. */
    method BlastBody(k: nat, ops: FloatOps) returns (e: seq<HitEvent>)
      requires world.Valid() && k < |world.bodies|
      modifies world.bodies[k]
      ensures world.States() == old(world.States())[k := Blasted(old(world.States())[k], location, radius, force, ops)]
      ensures e == HitOf(old(world.States())[k], k, location, radius, force, ops)
    {
      ghost var s0 := world.States();
      StatesOfIndex(world.bodies);
      var b := world.bodies[k];
      e := [];
      if b.enabled && !b.fixed && !b.trigger {
        var here := Location(b.State());
        var distance := Trunc(ops.distance(location, here));
        if distance <= radius {
          var direction := ops.getAngle(location, here);
          var response;
          if force > 0.0 {
            response := Percent((distance - radius) as real, force).value * -1.0;
            b.ApplyForceToward(ops, response, direction);
          } else {
            response := 0.0;
          }
          if b.hasOnHit {
            e := [HitEvent(k, response, direction)];
          }
        }
      }
      forall m | 0 <= m < |world.bodies| && m != k ensures world.bodies[m].State() == s0[m] {
        assert world.index[world.bodies[m]] != world.index[b];
      }
      StatesOfUpdate(world.bodies, s0, k);
    }

    /** `Explode`: every body of the world is visited in list order. */
    method Explode(ops: FloatOps) returns (hits: seq<HitEvent>)
      requires world.Valid()
      modifies world.bodies
      ensures world.States() == BlastUpTo(old(world.States()), |world.bodies|, location, radius, force, ops)
      ensures hits == HitsUpTo(old(world.States()), |world.bodies|, location, radius, force, ops)
    {
      ghost var s0 := world.States();
      hits := [];
      var k := 0;
      while k < |world.bodies|
        invariant 0 <= k <= |world.bodies|
        invariant world.States() == BlastUpTo(s0, k, location, radius, force, ops)
        invariant hits == HitsUpTo(s0, k, location, radius, force, ops)
      {
        BlastStep(s0, k, location, radius, force, ops);
        var e := BlastBody(k, ops);
        hits := hits + e;
        k := k + 1;
      }
    }
  }
}
