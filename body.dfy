/** `Body`: an axis-aligned box of the physics simulator. Its position is
    an integer rectangle; `Location` reads and writes the rectangle's
    centre, and the previous centre is kept to give the direction of
    travel. Callbacks are reduced to whether each handler is set. */
module PhysicsBody {
  import opened Xna
  import opened MathTools

  /** The fields of a body, as a value. `id` stands for the body's `Guid`. */
  datatype BodyState = BodyState(
    id: nat,
    enabled: bool,
    bounds: Rect,
    lastLocation: Vec,
    weight: real,
    fixed: bool,
    force: Vec,
    trigger: bool,
    z: int,
    zDiscard: bool,
    hasOnCollision: bool,
    hasOnTriggerCollision: bool,
    hasOnHit: bool)

  /** `Location` (getter): the centre of the bounds, `Rectangle.Center`. */
  function Location(s: BodyState): Vec {
    var c := Center(s.bounds);
    Vec(c.x as real, c.y as real)
  }

  /** The `Location` setter: the previous centre goes to `lastLocation`,
      and the rectangle is placed so that its centre is the truncated
      value, keeping its size. */
  function WithLocation(s: BodyState, v: Vec): BodyState {
    var b := s.bounds;
    s.(lastLocation := Location(s),
       bounds := b.(x := Trunc(v.x) - Half(b.width), y := Trunc(v.y) - Half(b.height)))
  }

  /** `LT`, `RT`, `LB`, `RB`: the corners of the bounds. */
  function LT(s: BodyState): Vec { Vec(s.bounds.Left() as real, s.bounds.Top() as real) }
  function RT(s: BodyState): Vec { Vec(s.bounds.Right() as real, s.bounds.Top() as real) }
  function LB(s: BodyState): Vec { Vec(s.bounds.Left() as real, s.bounds.Bottom() as real) }
  function RB(s: BodyState): Vec { Vec(s.bounds.Right() as real, s.bounds.Bottom() as real) }

  /** `Sensor`: the ground sensor, a strip one unit tall lying on the line
      just below the box, 8 units in from each side. */
  function Sensor(s: BodyState): Rect {
    Rect(Trunc(LB(s).x) + 8, Trunc(LB(s).y), s.bounds.width - 16, 1)
  }

  /** `DirectionVector`: how far the centre moved at the last `Location`
      assignment. */
  function DirectionVector(s: BodyState): Vec {
    Sub(Location(s), s.lastLocation)
  }

  /** The `Size` getter: the width and height of the bounds. */
  function Size(s: BodyState): Vec {
    Vec(s.bounds.width as real, s.bounds.height as real)
  }

  /** The `Size` setter: the size is truncated, the corner kept. */
  function WithSize(s: BodyState, v: Vec): BodyState {
    s.(bounds := Rect(s.bounds.x, s.bounds.y, Trunc(v.x), Trunc(v.y)))
  }

  /** `ApplyForce(Vector2)`: the force is replaced, not added to. */
  function WithForce(s: BodyState, f: Vec): BodyState {
    s.(force := f)
  }

  /** `ApplyForce(force, direction)`: the force becomes the step from the
      point `force` units away along `direction` back to the centre, that
      point being computed by the uninterpreted `MathTools.Move`. */
  function WithForceToward(s: BodyState, ops: FloatOps, force: real, direction: real): BodyState {
    WithForce(s, Sub(Location(s), ops.move(Location(s), Trunc(force) as real, direction)))
  }

  /** The state `Body(World)` creates: enabled, fixed, not a trigger, with
      no weight, no force, `Z` 0, no `ZDiscard`, empty bounds and no
      handlers. */
  function NewBodyState(id: nat): BodyState {
    BodyState(id, true, Empty, Zero, 0.0, true, Zero, false, 0, false, false, false, false)
  }

  /** The centre read back after an assignment is the assigned value,
      truncated; the size is kept and the old centre remembered. */
  lemma WithLocationThenLocation(s: BodyState, v: Vec)
    ensures Location(WithLocation(s, v)) == Vec(Trunc(v.x) as real, Trunc(v.y) as real)
    ensures WithLocation(s, v).bounds.width == s.bounds.width
    ensures WithLocation(s, v).bounds.height == s.bounds.height
    ensures WithLocation(s, v).lastLocation == Location(s)
    ensures DirectionVector(WithLocation(s, v)) == Sub(Vec(Trunc(v.x) as real, Trunc(v.y) as real), Location(s))
  {
    var b := WithLocation(s, v).bounds;
    assert Center(b).x == Trunc(v.x) - Half(s.bounds.width) + Half(s.bounds.width);
  }

  /** Assigning a body its own `Location` leaves its bounds as they are. */
  lemma WithOwnLocation(s: BodyState)
    ensures WithLocation(s, Location(s)).bounds == s.bounds
  {
    var c := Center(s.bounds);
    assert Trunc(c.x as real) == c.x;
    assert Trunc(c.y as real) == c.y;
  }

  /** Moving the centre by whole numbers moves the corner by exactly as
      much. */
  lemma WithLocationShift(s: BodyState, dx: int, dy: int)
    ensures WithLocation(s, Add(Location(s), Vec(dx as real, dy as real))).bounds
         == s.bounds.(x := s.bounds.x + dx, y := s.bounds.y + dy)
  {
    var c := Center(s.bounds);
    assert Add(Location(s), Vec(dx as real, dy as real)) == Vec((c.x + dx) as real, (c.y + dy) as real);
    assert Trunc((c.x + dx) as real) == c.x + dx;
    assert Trunc((c.y + dy) as real) == c.y + dy;
  }

  /** The sensor lies on the line just below the box, so it never overlaps
      the body itself; it overlaps every box whose top is that line and
      which spans part of the sensor's columns. */
  lemma SensorTouchesFloorOnly(s: BodyState, floor: Rect)
    ensures Sensor(s) == Rect(s.bounds.x + 8, s.bounds.Bottom(), s.bounds.width - 16, 1)
    ensures !Intersects(Sensor(s), s.bounds)
    ensures floor.y == s.bounds.Bottom() && floor.height >= 1
         && floor.x < s.bounds.x + s.bounds.width - 8 && s.bounds.x + 8 < floor.Right()
         ==> Intersects(Sensor(s), floor)
  {
    assert Trunc(LB(s).x) == s.bounds.x;
    assert Trunc(LB(s).y) == s.bounds.Bottom();
  }

  /** The `Size` setter keeps the corner and every other field, and each
      component of the new size is the given one truncated toward zero.
      Reading `Size` back gives the assigned vector exactly when it is
      whole, and assigning a body its own `Size` changes nothing. */
  lemma WithSizeKeepsCorner(s: BodyState, v: Vec)
    ensures WithSize(s, v).bounds.x == s.bounds.x && WithSize(s, v).bounds.y == s.bounds.y
    ensures WithSize(s, v).bounds.width == Trunc(v.x) && WithSize(s, v).bounds.height == Trunc(v.y)
    ensures WithSize(s, v).(bounds := s.bounds) == s
    ensures Size(WithSize(s, v)) == v <==> Integral(v)
    ensures WithSize(s, Size(s)) == s
  {
    if Integral(v) {
      assert Trunc(v.x) == v.x.Floor;
      assert Trunc(v.y) == v.y.Floor;
    }
    assert Trunc(s.bounds.width as real) == s.bounds.width;
    assert Trunc(s.bounds.height as real) == s.bounds.height;
  }

  /** `Body`. */
  class Body {
    var id: nat
    var enabled: bool
    var bounds: Rect
    var lastLocation: Vec
    var weight: real
    var fixed: bool
    var force: Vec
    var trigger: bool
    var z: int
    var zDiscard: bool
    var hasOnCollision: bool
    var hasOnTriggerCollision: bool
    var hasOnHit: bool

    function State(): BodyState
      reads this
    {
      BodyState(id, enabled, bounds, lastLocation, weight, fixed, force, trigger, z, zDiscard,
                hasOnCollision, hasOnTriggerCollision, hasOnHit)
    }

    /** `Body(World)`; `id` is the fresh `Guid`. */
    constructor (id: nat)
      ensures State() == NewBodyState(id)
    {
      this.id := id;
      enabled := true;
      bounds := Empty;
      lastLocation := Zero;
      weight := 0.0;
      fixed := true;
      force := Zero;
      trigger := false;
      z := 0;
      zDiscard := false;
      hasOnCollision := false;
      hasOnTriggerCollision := false;
      hasOnHit := false;
    }

    /** `Body(World, Bounds, Weight, Fixed)`; leaving `fixed` true gives
        `Body(World, Bounds, Weight)`. */
    constructor WithBounds(id: nat, bounds: Rect, weight: real, fixed: bool)
      ensures State() == NewBodyState(id).(bounds := bounds, weight := weight, fixed := fixed)
    {
      this.id := id;
      enabled := true;
      this.bounds := bounds;
      lastLocation := Zero;
      this.weight := weight;
      this.fixed := fixed;
      force := Zero;
      trigger := false;
      z := 0;
      zDiscard := false;
      hasOnCollision := false;
      hasOnTriggerCollision := false;
      hasOnHit := false;
    }

    /** `Body(World, Bounds, Weight, Fixed, Z)`. */
    constructor WithZ(id: nat, bounds: Rect, weight: real, fixed: bool, z: int)
      ensures State() == NewBodyState(id).(bounds := bounds, weight := weight, fixed := fixed, z := z)
    {
      this.id := id;
      enabled := true;
      this.bounds := bounds;
      lastLocation := Zero;
      this.weight := weight;
      this.fixed := fixed;
      force := Zero;
      trigger := false;
      this.z := z;
      zDiscard := false;
      hasOnCollision := false;
      hasOnTriggerCollision := false;
      hasOnHit := false;
    }

    /** `Body(World, Bounds, Weight, Fixed, ZDiscard)`. */
    constructor WithZDiscard(id: nat, bounds: Rect, weight: real, fixed: bool, zDiscard: bool)
      ensures State() == NewBodyState(id).(bounds := bounds, weight := weight, fixed := fixed, zDiscard := zDiscard)
    {
      this.id := id;
      enabled := true;
      this.bounds := bounds;
      lastLocation := Zero;
      this.weight := weight;
      this.fixed := fixed;
      force := Zero;
      trigger := false;
      z := 0;
      this.zDiscard := zDiscard;
      hasOnCollision := false;
      hasOnTriggerCollision := false;
      hasOnHit := false;
    }

    /** The `Location` setter. */
    method SetLocation(v: Vec)
      modifies this
      ensures State() == WithLocation(old(State()), v)
    {
      lastLocation := Location(State());
      var r := bounds;
      r := r.(x := Trunc(v.x) - Half(bounds.width), y := Trunc(v.y) - Half(bounds.height));
      bounds := r;
    }

    /** The `Size` setter. */
    method SetSize(v: Vec)
      modifies this
      ensures State() == WithSize(old(State()), v)
    {
      bounds := Rect(bounds.x, bounds.y, Trunc(v.x), Trunc(v.y));
    }

    /** `ApplyForce(Vector2)`. */
    method ApplyForce(f: Vec)
      modifies this
      ensures State() == WithForce(old(State()), f)
    {
      force := f;
    }

    /** `ApplyForce(float, float)`. */
    method ApplyForceToward(ops: FloatOps, f: real, direction: real)
      modifies this
      ensures State() == WithForceToward(old(State()), ops, f, direction)
    {
      var here := Location(State());
      ApplyForce(Sub(here, ops.move(here, Trunc(f) as real, direction)));
    }
  }
}
