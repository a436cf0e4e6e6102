/** One boid (`ComputeBoid`): its transform, its velocity and its neighbour list, and the
    step that turns it, clamps its speed, moves it and wraps it into the volume. Both
    managers drive their boids through this class.

    Neighbours are held as indices into the managing array of boids, which holds each
    boid once for the whole run, so an index stands for the boid reference the list
    holds. The rotation step (`LookRotation`, `RotateTowards`) is not modelled: the
    forward axis it produces is passed in as `turned`. */
module Agents {
  import opened Vectors
  import opened Boundary

  /** What a boid is at one moment: transform position and forward axis, velocity and
      neighbour list. */
  datatype AgentState = AgentState(position: Vec3, forward: Vec3, velocity: Vec3, neighbours: seq<nat>)

  /** What `UpdatePosition` reads from its manager: the speed limits, the fixed time step,
      the wrap switch and the bounds. */
  datatype Motion = Motion(minSpeed: real, maxSpeed: real, dt: real, wrapEnabled: bool, bounds: Bounds)

  /** `Mathf.Clamp`: the lower limit is tested first. */
  function Clamp(v: real, lo: real, hi: real): (r: real)
    ensures lo <= hi ==> lo <= r <= hi
    ensures lo <= v <= hi ==> r == v
    ensures v < lo ==> r == lo
    ensures lo <= v && hi < v ==> r == hi
  {
    if v < lo then lo else if v > hi then hi else v
  }

  /** The state `UpdatePosition` leaves: a zero velocity is first replaced by the forward
      axis, the speed is the clamped length of that velocity, the new velocity points along
      the turned forward axis, and the position advances by one time step and is wrapped. */
  function Integrate(sqrt: real -> real, b: AgentState, turned: Vec3, m: Motion): AgentState
  {
    var v := if b.velocity == Zero then b.forward else b.velocity;
    var velocity := Scale(turned, Clamp(Magnitude(sqrt, v), m.minSpeed, m.maxSpeed));
    AgentState(WrapIfEnabled(m.wrapEnabled, m.bounds, Add(b.position, Scale(velocity, m.dt))),
               turned, velocity, b.neighbours)
  }

  /** After a step the boid faces the turned axis, its neighbour list is untouched, and its
      speed lies between the limits: a boid that was too fast moves at the top speed, one
      that was too slow at the bottom speed, and any other keeps its speed. */
  lemma IntegrateSpeedBounded(sqrt: real -> real, b: AgentState, turned: Vec3, m: Motion)
    requires IsSqrt(sqrt) && SqrMagnitude(turned) == 1.0
    requires 0.0 <= m.minSpeed <= m.maxSpeed
    ensures var r := Integrate(sqrt, b, turned, m);
      r.forward == turned && r.neighbours == b.neighbours &&
      m.minSpeed <= Magnitude(sqrt, r.velocity) <= m.maxSpeed
    ensures var v := if b.velocity == Zero then b.forward else b.velocity;
      var speed := Magnitude(sqrt, Integrate(sqrt, b, turned, m).velocity);
      (m.maxSpeed < Magnitude(sqrt, v) ==> speed == m.maxSpeed) &&
      (Magnitude(sqrt, v) < m.minSpeed ==> speed == m.minSpeed) &&
      (m.minSpeed <= Magnitude(sqrt, v) <= m.maxSpeed ==> speed == Magnitude(sqrt, v))
  {
    var v := if b.velocity == Zero then b.forward else b.velocity;
    var speed := Clamp(Magnitude(sqrt, v), m.minSpeed, m.maxSpeed);
    MagnitudeOfScaledUnit(sqrt, turned, speed);
  }

  /** A boid standing still with a unit forward axis sets off at the unit speed clamped
      to the limits. */
  lemma StoppedBoidRestarts(sqrt: real -> real, b: AgentState, turned: Vec3, m: Motion)
    requires IsSqrt(sqrt) && b.velocity == Zero && SqrMagnitude(b.forward) == 1.0
    ensures Integrate(sqrt, b, turned, m).velocity == Scale(turned, Clamp(1.0, m.minSpeed, m.maxSpeed))
  {
    MagnitudeOfScaledUnit(sqrt, b.forward, 1.0);
    assert Scale(b.forward, 1.0) == b.forward;
  }

  /** With wrapping on, a boid inside the volume stays inside when one step at the top
      speed cannot carry it further than the volume is wide. */
  lemma IntegrateStaysInside(sqrt: real -> real, b: AgentState, turned: Vec3, m: Motion)
    requires IsSqrt(sqrt) && SqrMagnitude(turned) == 1.0
    requires 0.0 <= m.minSpeed <= m.maxSpeed && 0.0 <= m.dt && m.wrapEnabled
    requires Inside(m.bounds, b.position)
    requires var e := Sub(m.bounds.max, m.bounds.min);
      Mul(m.maxSpeed, m.dt) <= e.x && Mul(m.maxSpeed, m.dt) <= e.y && Mul(m.maxSpeed, m.dt) <= e.z
    ensures Inside(m.bounds, Integrate(sqrt, b, turned, m).position)
  {
    var v := if b.velocity == Zero then b.forward else b.velocity;
    var speed := Clamp(Magnitude(sqrt, v), m.minSpeed, m.maxSpeed);
    UnitComponents(turned);
    UnitStepInside(m.bounds, b.position, turned, speed, m.maxSpeed, m.dt);
  }

  lemma UnitStepInside(bounds: Bounds, p: Vec3, turned: Vec3, speed: real, maxSpeed: real, dt: real)
    requires -1.0 <= turned.x <= 1.0 && -1.0 <= turned.y <= 1.0 && -1.0 <= turned.z <= 1.0
    requires 0.0 <= speed <= maxSpeed && 0.0 <= dt && Inside(bounds, p)
    requires var e := Sub(bounds.max, bounds.min);
      Mul(maxSpeed, dt) <= e.x && Mul(maxSpeed, dt) <= e.y && Mul(maxSpeed, dt) <= e.z
    ensures Inside(bounds, Wrap(bounds, Add(p, Scale(Scale(turned, speed), dt))))
  {
    StepBounded(turned, speed, maxSpeed, dt);
    StepInside(bounds, p, Scale(Scale(turned, speed), dt), Mul(maxSpeed, dt));
  }

  /** A step along a direction whose components lie in `[-1, 1]` moves the boid by no
      more than the top speed times the time step on each axis. */
  lemma StepBounded(turned: Vec3, speed: real, maxSpeed: real, dt: real)
    requires -1.0 <= turned.x <= 1.0 && -1.0 <= turned.y <= 1.0 && -1.0 <= turned.z <= 1.0
    requires 0.0 <= speed <= maxSpeed && 0.0 <= dt
    ensures var step, s := Scale(Scale(turned, speed), dt), Mul(maxSpeed, dt);
      -s <= step.x <= s && -s <= step.y <= s && -s <= step.z <= s
  {
    AxisStep(turned, 0, speed, maxSpeed, dt);
    AxisStep(turned, 1, speed, maxSpeed, dt);
    AxisStep(turned, 2, speed, maxSpeed, dt);
  }

  /** Component `k` of a vector: x, y, then z. */
  function Axis(v: Vec3, k: nat): real
  {
    if k == 0 then v.x else if k == 1 then v.y else v.z
  }

  /** One axis of `StepBounded`. */
  lemma AxisStep(turned: Vec3, k: nat, speed: real, maxSpeed: real, dt: real)
    requires -1.0 <= Axis(turned, k) <= 1.0 && 0.0 <= speed <= maxSpeed && 0.0 <= dt
    ensures -Mul(maxSpeed, dt) <= Axis(Scale(Scale(turned, speed), dt), k) <= Mul(maxSpeed, dt)
  {
    ComponentStep(Axis(turned, k), speed, maxSpeed, dt);
  }

  /** The linear part of `IntegrateStaysInside`: a step no longer than the box is wide on
      any axis overshoots it by at most one extent, so one wrap brings the boid back. */
  lemma StepInside(bounds: Bounds, p: Vec3, step: Vec3, s: real)
    requires Inside(bounds, p)
    requires -s <= step.x <= s && -s <= step.y <= s && -s <= step.z <= s
    requires var e := Sub(bounds.max, bounds.min); s <= e.x && s <= e.y && s <= e.z
    ensures Inside(bounds, Wrap(bounds, Add(p, step)))
  {
    WrapLandsInside(bounds, Add(p, step));
  }

  /** One axis of one step: a component `a` with `|a| <= 1` moves the boid by no more
      than the top speed times the time step. */
  lemma ComponentStep(a: real, speed: real, maxSpeed: real, dt: real)
    requires -1.0 <= a <= 1.0 && 0.0 <= speed <= maxSpeed && 0.0 <= dt
    ensures -Mul(maxSpeed, dt) <= (a * speed) * dt <= Mul(maxSpeed, dt)
  {
    MulMonotone(speed, maxSpeed, dt);
    var s := Mul(speed, dt);
    MulNonNegative(speed, dt);
    assert (a * speed) * dt == Mul(a, s);
    MulNonNegative(1.0 - a, s);
    MulNonNegative(1.0 + a, s);
    assert Mul(1.0 - a, s) == s - Mul(a, s);
    assert Mul(1.0 + a, s) == s + Mul(a, s);
  }

  lemma MulNonNegative(a: real, b: real)
    requires 0.0 <= a && 0.0 <= b
    ensures 0.0 <= Mul(a, b)
  {
    if a != 0.0 && b != 0.0 {
      MulPositive(a, b);
    }
  }

  lemma MulMonotone(a: real, b: real, c: real)
    requires 0.0 <= a <= b && 0.0 <= c
    ensures 0.0 <= Mul(a, c) <= Mul(b, c)
  {
    MulNonNegative(a, c);
    MulNonNegative(b - a, c);
    assert Mul(b - a, c) == Mul(b, c) - Mul(a, c);
  }

  /** A component above one in size would square to more than one. */
  lemma UnitBound(a: real)
    requires Square(a) <= 1.0
    ensures -1.0 <= a <= 1.0
  {
    if 1.0 < a {
      SquareAboveOne(a);
    } else if a < -1.0 {
      SquareBelowMinusOne(a);
    }
  }

  lemma SquareAboveOne(a: real)
    requires 1.0 < a
    ensures 1.0 < Square(a)
  {
    assert Mul(a - 1.0, a + 1.0) == Square(a) - 1.0;
    MulPositive(a - 1.0, a + 1.0);
  }

  lemma SquareBelowMinusOne(a: real)
    requires a < -1.0
    ensures 1.0 < Square(a)
  {
    assert Mul(-a - 1.0, 1.0 - a) == Square(a) - 1.0;
    MulPositive(-a - 1.0, 1.0 - a);
  }

  lemma UnitComponents(u: Vec3)
    requires SqrMagnitude(u) == 1.0
    ensures -1.0 <= u.x <= 1.0 && -1.0 <= u.y <= 1.0 && -1.0 <= u.z <= 1.0
  {
    SquareNonNegative(u.x);
    SquareNonNegative(u.y);
    SquareNonNegative(u.z);
    UnitBound(u.x);
    UnitBound(u.y);
    UnitBound(u.z);
  }

  /** A boid: `m_velocity`, `m_neighbours` and the position and forward axis of its
      transform. */
  class ComputeBoid {
    var position: Vec3
    var forward: Vec3
    var velocity: Vec3
    var neighbours: seq<nat>

    function State(): AgentState
      reads this
    {
      AgentState(position, forward, velocity, neighbours)
    }

    /** A boid placed with a position and a heading starts at rest with no neighbours. */
    constructor(position: Vec3, forward: Vec3)
      ensures State() == AgentState(position, forward, Zero, [])
    {
      this.position := position;
      this.forward := forward;
      velocity := Zero;
      neighbours := [];
    }

    /** `UpdatePosition`, with the forward axis the rotation step produces passed in. */
    method UpdatePosition(sqrt: real -> real, turned: Vec3, m: Motion)
      modifies this
      ensures State() == Integrate(sqrt, old(State()), turned, m)
    {
      if velocity == Zero {
        velocity := forward;
      }
      forward := turned;
      var magnitude := Magnitude(sqrt, velocity);
      magnitude := Clamp(magnitude, m.minSpeed, m.maxSpeed);
      velocity := Scale(forward, magnitude);
      var newPosition := Add(position, Scale(velocity, m.dt));
      newPosition := GetWrappedPositionIfEnabled(m.wrapEnabled, m.bounds, newPosition);
      position := newPosition;
    }

    method GetBoidVelocity() returns (v: Vec3)
      ensures v == velocity
    {
      v := velocity;
    }

    method SetBoidVelocity(v: Vec3)
      modifies this
      ensures State() == old(State()).(velocity := v)
    {
      velocity := v;
    }

    /** The neighbour goes to the end of the list; duplicates are kept. */
    method AddNeighbour(k: nat)
      modifies this
      ensures State() == old(State()).(neighbours := old(neighbours) + [k])
    {
      neighbours := neighbours + [k];
    }

    method ClearNeighbours()
      modifies this
      ensures State() == old(State()).(neighbours := [])
    {
      neighbours := [];
    }

    method GetNeighbourCount() returns (n: nat)
      ensures n == |neighbours|
    {
      n := |neighbours|;
    }

    /** The neighbours, one at a time in the order they were added. */
    method IterateNeighbours() returns (ks: seq<nat>)
      ensures ks == neighbours
    {
      ks := [];
      for t := 0 to |neighbours|
        invariant ks == neighbours[..t]
      {
        ks := ks + [neighbours[t]];
      }
    }
  }

  /** Setting a velocity and reading it back gives the value set. */
  method SetThenGetVelocity(b: ComputeBoid, v: Vec3) returns (w: Vec3)
    modifies b
    ensures w == v && b.neighbours == old(b.neighbours)
  {
    b.SetBoidVelocity(v);
    w := b.GetBoidVelocity();
  }

  /** Adding to a list and counting: one more than before, the earlier entries kept. */
  method AddThenCount(b: ComputeBoid, k: nat) returns (n: nat, ks: seq<nat>)
    modifies b
    ensures n == |old(b.neighbours)| + 1 && |ks| == n && ks[..n - 1] == old(b.neighbours) && ks[n - 1] == k
  {
    b.AddNeighbour(k);
    n := b.GetNeighbourCount();
    ks := b.IterateNeighbours();
  }

  /** After clearing, the count is zero, and clearing again changes nothing. */
  method ClearThenCount(b: ComputeBoid) returns (n: nat)
    modifies b
    ensures n == 0 && b.State() == old(b.State()).(neighbours := [])
  {
    b.ClearNeighbours();
    b.ClearNeighbours();
    n := b.GetNeighbourCount();
  }
}
