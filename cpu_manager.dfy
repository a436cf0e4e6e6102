/** `BoidManager`: the manager that finds neighbours on the CPU by testing every pair of
    boids against the neighbour radius, then steers every boid in turn with the
    separate rule functions and, when there are obstacles, the avoidance rule. */
module CpuManager {
  import opened Vectors
  import opened Boundary
  import opened Obstacles
  import opened Steering
  import opened Agents
  import opened NeighbourSearch
  import opened Flocking
  import opened Cells
  import opened CellGrid

  /** The pairs within the neighbour radius: `radiusSqr` is the radius squared, and the
      test is inclusive. */
  function NearLinks(f: seq<AgentState>, radiusSqr: real): Links
  {
    (a: nat, b: nat) => a < b < |f| && SqrMagnitude(Sub(f[b].position, f[a].position)) <= radiusSqr
  }

  /** The squared distance does not depend on which of the two points comes first. */
  lemma SqrDistanceSymmetric(p: Vec3, q: Vec3)
    ensures SqrMagnitude(Sub(p, q)) == SqrMagnitude(Sub(q, p))
  {
    assert Sub(p, q) == Scale(Sub(q, p), -1.0);
    SqrMagnitudeScale(Sub(q, p), -1.0);
  }

  /** Starting from empty lists, the search makes `j` a neighbour of `i` exactly when
      they are different boids no further apart than the radius; the relation is
      symmetric, and no list holds its own boid or any boid twice. */
  lemma NearNeighbours(f: seq<AgentState>, radiusSqr: real, i: nat, j: nat)
    requires forall k :: 0 <= k < |f| ==> f[k].neighbours == []
    requires i < |f| && j < |f|
    ensures var r := Search(f, NearLinks(f, radiusSqr));
      (j in r[i].neighbours <==> i in r[j].neighbours) &&
      (j in r[i].neighbours <==> i != j && SqrMagnitude(Sub(f[j].position, f[i].position)) <= radiusSqr) &&
      i !in r[i].neighbours &&
      forall s, t :: 0 <= s < t < |r[i].neighbours| ==> r[i].neighbours[s] != r[i].neighbours[t]
  {
    SearchRelation(f, NearLinks(f, radiusSqr), i, j);
    SqrDistanceSymmetric(f[j].position, f[i].position);
  }

  /** What the manager reads besides the boids: the neighbour radius, the rules, the
      avoidance settings with the obstacles of the scene, and what `UpdatePosition` needs. */
  datatype Settings = Settings(
    updatePosition: bool, neighbourRadius: real, rules: Rules,
    enableAvoidance: bool, avoidanceFactor: real, avoidanceDistance: real, obstacles: seq<Obstacle>,
    motion: Motion)

  /** Whether boid `i` can be steered in flock `f`: its neighbour indices are valid and,
      when separation is on, no neighbour shares its position (the rule would divide by
      zero). */
  predicate Steerable(rules: Rules, f: seq<AgentState>, i: nat)
  {
    IndicesIn(f) && i < |f| &&
    (rules.enableSeparation ==>
      SeparationDefined(f[i].position, NeighbourPositions(f, i), Square(rules.separationValue)))
  }

  /** Whether the avoidance rule runs: only when the scene has obstacles and it is on. */
  predicate Avoiding(s: Settings)
  {
    |s.obstacles| > 0 && s.enableAvoidance
  }

  /** The weighted sum of the three neighbour rules for boid `i`; the separation rule is
      only evaluated when it is on. */
  function WeightedRules(sqrt: real -> real, rules: Rules, f: seq<AgentState>, i: nat): Vec3
    requires Steerable(rules, f, i)
  {
    var qs := NeighbourPositions(f, i);
    var separation :=
      if rules.enableSeparation then Separation(sqrt, f[i].position, qs, Square(rules.separationValue))
      else Zero;
    RuleSum(rules, separation, Alignment(sqrt, NeighbourVelocities(f, i)), Cohesion(f[i].position, qs))
  }

  /** The velocity the loop of `FixedUpdate` computes for boid `i`: the weighted rules,
      plus the weighted avoidance when the scene has obstacles and avoidance is on. */
  function Steer(sqrt: real -> real, s: Settings, f: seq<AgentState>, i: nat): Vec3
    requires Steerable(s.rules, f, i)
  {
    var sum := WeightedRules(sqrt, s.rules, f, i);
    if Avoiding(s) then
      Add(sum, Scale(Avoidance(sqrt, s.obstacles, f[i].position, f[i].velocity, s.avoidanceDistance), s.avoidanceFactor))
    else sum
  }

  /** Boid `i` after its turn: the steering sum becomes its velocity only when it is not
      zero (its squared magnitude is positive), then the boid moves and its list is
      cleared. */
  function SteeredBoid(sqrt: real -> real, s: Settings, turned: Vec3, f: seq<AgentState>, i: nat): AgentState
    requires Steerable(s.rules, f, i)
  {
    var v := Steer(sqrt, s, f, i);
    var b := if v != Zero then f[i].(velocity := v) else f[i];
    Integrate(sqrt, b, turned, s.motion).(neighbours := [])
  }

  /** The loop of `FixedUpdate` from boid `i` on, in place: each boid is steered from the
      flock as the boids before it have already left it. `None` when some boid on the way
      cannot be steered. */
  function Pass(sqrt: real -> real, s: Settings, turns: seq<Vec3>, f: seq<AgentState>, i: nat): Option<seq<AgentState>>
    requires |turns| == |f| && i <= |f|
    decreases |f| - i
  {
    if i == |f| then Some(f)
    else if !Steerable(s.rules, f, i) then None
    else Pass(sqrt, s, turns, f[i := SteeredBoid(sqrt, s, turns[i], f, i)], i + 1)
  }

  /** One `FixedUpdate`: nothing at all when updates are off; otherwise the search with
      the neighbour radius, then the pass. */
  function Tick(sqrt: real -> real, s: Settings, turns: seq<Vec3>, f0: seq<AgentState>): Option<seq<AgentState>>
    requires |turns| == |f0|
  {
    if !s.updatePosition then Some(f0)
    else Pass(sqrt, s, turns, Search(f0, NearLinks(f0, Square(s.neighbourRadius))), 0)
  }

  // ------------------------------------------------------------ tick properties

  /** One step of a pass that goes through: boid `i` can be steered, and the rest of the
      pass runs on the flock with boid `i` steered. */
  lemma PassStep(sqrt: real -> real, s: Settings, turns: seq<Vec3>, f: seq<AgentState>, i: nat)
    requires |turns| == |f| && i < |f| && Pass(sqrt, s, turns, f, i).Some?
    ensures Steerable(s.rules, f, i)
    ensures Pass(sqrt, s, turns, f, i) == Pass(sqrt, s, turns, f[i := SteeredBoid(sqrt, s, turns[i], f, i)], i + 1)
  {
  }

  /** Boid `i` after its turn, given the steering sum `v` the turn computes. */
  lemma SteeredBoidOf(sqrt: real -> real, s: Settings, turned: Vec3, f: seq<AgentState>, i: nat, v: Vec3)
    requires Steerable(s.rules, f, i) && v == Steer(sqrt, s, f, i)
    ensures SteeredBoid(sqrt, s, turned, f, i) ==
      Integrate(sqrt, if v != Zero then f[i].(velocity := v) else f[i], turned, s.motion).(neighbours := [])
  {
  }

  /** A pass leaves the boids before `i` as they were, and every boid from `i` on with an
      empty neighbour list. */
  lemma {:induction false} PassClears(sqrt: real -> real, s: Settings, turns: seq<Vec3>, f: seq<AgentState>, i: nat)
    requires |turns| == |f| && i <= |f| && Pass(sqrt, s, turns, f, i).Some?
    ensures var g := Pass(sqrt, s, turns, f, i).value;
      |g| == |f| &&
      (forall k :: 0 <= k < i ==> g[k] == f[k]) &&
      (forall k :: i <= k < |g| ==> g[k].neighbours == [])
    decreases |f| - i
  {
    if i < |f| {
      PassStep(sqrt, s, turns, f, i);
      var b := SteeredBoid(sqrt, s, turns[i], f, i);
      SteeredBoidCleared(sqrt, s, turns[i], f, i);
      var f' := f[i := b];
      PassClears(sqrt, s, turns, f', i + 1);
      var g := Pass(sqrt, s, turns, f', i + 1).value;
      assert g[i] == f'[i] == b;
    }
  }

  /** A steered boid leaves its turn with an empty neighbour list. */
  lemma SteeredBoidCleared(sqrt: real -> real, s: Settings, turned: Vec3, f: seq<AgentState>, i: nat)
    requires Steerable(s.rules, f, i)
    ensures SteeredBoid(sqrt, s, turned, f, i).neighbours == []
  {
  }

  /** With updates on, every list is empty after the tick; with updates off, the tick
      changes nothing. */
  lemma TickClearsLists(sqrt: real -> real, s: Settings, turns: seq<Vec3>, f0: seq<AgentState>)
    requires |turns| == |f0| && Tick(sqrt, s, turns, f0).Some?
    ensures var g := Tick(sqrt, s, turns, f0).value;
      |g| == |f0| &&
      (s.updatePosition ==> forall k :: 0 <= k < |g| ==> g[k].neighbours == []) &&
      (!s.updatePosition ==> g == f0)
  {
    if s.updatePosition {
      PassClears(sqrt, s, turns, Search(f0, NearLinks(f0, Square(s.neighbourRadius))), 0);
    }
  }

  /** A zero steering sum leaves the velocity alone: the boid moves on with the velocity
      it had (or along its forward axis when that was zero too). */
  lemma ZeroSumKeepsVelocity(sqrt: real -> real, s: Settings, turned: Vec3, f: seq<AgentState>, i: nat)
    requires Steerable(s.rules, f, i) && Steer(sqrt, s, f, i) == Zero
    ensures SteeredBoid(sqrt, s, turned, f, i) == Integrate(sqrt, f[i], turned, s.motion).(neighbours := [])
  {
  }

  /** Skipping the avoidance rule in an empty scene is harmless: the term it would add
      is zero, since no obstacle pushes and the normalised zero vector is zero. */
  lemma EmptySceneAvoidanceVanishes(sqrt: real -> real, sum: Vec3, p: Vec3, v: Vec3, distance: real, factor: real)
    ensures Add(sum, Scale(Avoidance(sqrt, [], p, v, distance), factor)) == sum
  {
    NothingCollidesNoAvoidance(sqrt, [], p, v, distance);
    ScaleZero(factor);
  }

  /** What a turn does to one boid once its steering sum is known. */
  method ApplyTurn(sqrt: real -> real, boid: ComputeBoid, newVelocity: Vec3, turned: Vec3, m: Motion)
    modifies boid
    ensures var b := if newVelocity != Zero then old(boid.State()).(velocity := newVelocity) else old(boid.State());
      boid.State() == Integrate(sqrt, b, turned, m).(neighbours := [])
  {
    SetVelocityIfMoving(boid, newVelocity);
    boid.UpdatePosition(sqrt, turned, m);
    boid.ClearNeighbours();
  }

  /** The guard of `FixedUpdate` around `SetBoidVelocity`: a sum whose squared magnitude
      is not positive, that is the zero vector, is dropped. */
  method SetVelocityIfMoving(boid: ComputeBoid, newVelocity: Vec3)
    modifies boid
    ensures boid.State() == if newVelocity != Zero then old(boid.State()).(velocity := newVelocity) else old(boid.State())
  {
    if SqrMagnitude(newVelocity) > 0.0 {
      boid.SetBoidVelocity(newVelocity);
    }
  }

  // ------------------------------------------------------------ the manager

  class BoidManager {
    const boids: array<ComputeBoid>
    const settings: Settings
    /** The inspector's cell counts, one per axis, as floating-point values. */
    const numCells: Vec3
    var cells: array<Cell?>

    /** The array holds distinct boids whose neighbour indices name boids of the array. */
    ghost predicate Valid()
      reads this, boids, boids[..]
    {
      Distinct(boids) && IndicesIn(FlockOf(boids))
    }

    constructor(boids: array<ComputeBoid>, settings: Settings, numCells: Vec3)
      ensures this.boids == boids && this.settings == settings && this.numCells == numCells
      ensures cells.Length == 0
    {
      this.boids := boids;
      this.settings := settings;
      this.numCells := numCells;
      this.cells := new Cell?[0];
    }

    /** `GenerateCells`: a fresh array of `(int)x * (int)y * (int)z` cells, filled by three
        nested loops whose running corners start at the minimum bound and step by the
        interval; the cells come out in the order of `AllCells`. */
    method GenerateCells()
      requires ValidCounts(numCells)
      modifies this
      ensures fresh(cells)
      ensures cells.Length == |AllCells(settings.motion.bounds, numCells)|
      ensures forall k :: 0 <= k < cells.Length ==>
        cells[k] != null && cells[k].Geometry() == AllCells(settings.motion.bounds, numCells)[k]
    {
      var b := settings.motion.bounds;
      var nx, ny, nz := Truncate(numCells.x), Truncate(numCells.y), Truncate(numCells.z);
      var arraySize := nx * ny * nz;
      var newCells := new Cell?[arraySize];

      var xInterval := (b.max.x - b.min.x) / numCells.x;
      var yInterval := (b.max.y - b.min.y) / numCells.y;
      var zInterval := (b.max.z - b.min.z) / numCells.z;
      var interval := Vec3(xInterval, yInterval, zInterval);
      var xCurrentValue := b.min.x;

      var cellNumber := 0;
      ghost var built: seq<Box> := [];
      for x := 0 to nx
        invariant xCurrentValue == b.min.x + Mul(x as real, xInterval)
        invariant built == Grid(b, numCells, x, ny, nz) && cellNumber == |built|
        invariant cellNumber <= newCells.Length
        invariant forall k :: 0 <= k < cellNumber ==> newCells[k] != null && newCells[k].Geometry() == built[k]
      {
        LayerFits(b, numCells, x, nx, ny, nz);
        cellNumber, built := FillLayer(newCells, b, numCells, interval, x, xCurrentValue, ny, nz, cellNumber, built);
        MulSucc(x, xInterval);
        xCurrentValue := xCurrentValue + xInterval;
      }
      AllCellsSize(b, numCells);
      cells := newCells;
    }

    /** The middle loop of `GenerateCells` for layer `x`: its rows in order from slot
        `start` on. */
    static method FillLayer(cells: array<Cell?>, b: Bounds, numCells: Vec3, interval: Vec3, x: nat, xValue: real,
                            ny: nat, nz: nat, start: nat, ghost before: seq<Box>)
      returns (next: nat, ghost after: seq<Box>)
      requires ValidCounts(numCells) && interval == Interval(b, numCells)
      requires xValue == b.min.x + Mul(x as real, interval.x)
      requires start == |before| && start + |Layer(b, numCells, x, ny, nz)| <= cells.Length
      requires forall k :: 0 <= k < start ==> cells[k] != null && cells[k].Geometry() == before[k]
      modifies cells
      ensures after == before + Layer(b, numCells, x, ny, nz) && next == |after|
      ensures forall k :: 0 <= k < next ==> cells[k] != null && cells[k].Geometry() == after[k]
    {
      var yCurrentValue := b.min.y;
      next, after := start, before;
      for y := 0 to ny
        invariant yCurrentValue == b.min.y + Mul(y as real, interval.y)
        invariant after == before + Layer(b, numCells, x, y, nz) && next == |after|
        invariant next <= cells.Length
        invariant forall k :: 0 <= k < next ==> cells[k] != null && cells[k].Geometry() == after[k]
      {
        RowFits(b, numCells, x, y, ny, nz);
        next, after := FillRow(cells, b, numCells, interval, x, y, xValue, yCurrentValue, nz, next, after);
        assert after == before + Layer(b, numCells, x, y + 1, nz);
        MulSucc(y, interval.y);
        yCurrentValue := yCurrentValue + interval.y;
      }
    }

    /** The innermost loop of `GenerateCells` for row `(x, y)`: one new cell per `z`, its
        corner stepping by the interval along z. */
    static method FillRow(cells: array<Cell?>, b: Bounds, numCells: Vec3, interval: Vec3, x: nat, y: nat,
                          xValue: real, yValue: real, nz: nat, start: nat, ghost before: seq<Box>)
      returns (next: nat, ghost after: seq<Box>)
      requires ValidCounts(numCells) && interval == Interval(b, numCells)
      requires xValue == b.min.x + Mul(x as real, interval.x) && yValue == b.min.y + Mul(y as real, interval.y)
      requires start == |before| && start + nz <= cells.Length
      requires forall k :: 0 <= k < start ==> cells[k] != null && cells[k].Geometry() == before[k]
      modifies cells
      ensures after == before + Row(b, numCells, x, y, nz) && next == |after|
      ensures forall k :: 0 <= k < next ==> cells[k] != null && cells[k].Geometry() == after[k]
    {
      var zCurrentValue := b.min.z;
      next, after := start, before;
      for z := 0 to nz
        invariant zCurrentValue == b.min.z + Mul(z as real, interval.z)
        invariant after == before + Row(b, numCells, x, y, nz)[..z] && next == |after|
        invariant forall k :: 0 <= k < next ==> cells[k] != null && cells[k].Geometry() == after[k]
      {
        var cell := new Cell(Vec3(xValue, yValue, zCurrentValue), interval);
        cells[next] := cell;
        assert Row(b, numCells, x, y, nz)[..z + 1] == Row(b, numCells, x, y, nz)[..z] + [CellBox(b, numCells, x, y, z)];
        after := after + [CellBox(b, numCells, x, y, z)];
        next := next + 1;
        MulSucc(z, interval.z);
        zCurrentValue := zCurrentValue + interval.z;
      }
      assert Row(b, numCells, x, y, nz)[..nz] == Row(b, numCells, x, y, nz);
    }

    /** `FixedUpdate`: nothing when updates are off; otherwise the search, then every boid
        steered, moved and cleared in array order. `turns` holds the forward axis each
        boid's rotation step produces. */
    method FixedUpdate(sqrt: real -> real, turns: seq<Vec3>)
      requires Valid() && |turns| == boids.Length
      requires Tick(sqrt, settings, turns, FlockOf(boids)).Some?
      modifies boids[..]
      ensures Valid()
      ensures FlockOf(boids) == Tick(sqrt, settings, turns, old(FlockOf(boids))).value
    {
      if !settings.updatePosition {
        return;
      }
      PerformNeighbourSearch();
      SteerAll(sqrt, turns);
    }

    /** `PerformNeighbourSearch`: every pair `i < j` in row order, linked when the squared
        distance is at most the radius squared. No position changes meanwhile, so every
        test sees the positions the search started from. */
    method PerformNeighbourSearch()
      requires Valid()
      modifies boids[..]
      ensures Valid()
      ensures FlockOf(boids) ==
        Search(old(FlockOf(boids)), NearLinks(old(FlockOf(boids)), Square(settings.neighbourRadius)))
    {
      ghost var f0 := FlockOf(boids);
      ghost var links := NearLinks(f0, Square(settings.neighbourRadius));
      SearchIndicesIn(f0, links);
      SearchedFlockStart(f0, links);
      var neighbourRadSqr := settings.neighbourRadius * settings.neighbourRadius;
      assert neighbourRadSqr == Square(settings.neighbourRadius);
      for i := 0 to boids.Length
        invariant FlockOf(boids) == SearchedFlock(f0, links, i, i + 1)
      {
        SearchRow(f0, neighbourRadSqr, i);
      }
      SearchedFlockEnd(f0, links);
    }

    /** Row `i` of the search: the pairs `(i, i + 1) .. (i, n - 1)`. */
    method SearchRow(ghost f0: seq<AgentState>, neighbourRadSqr: real, i: nat)
      requires Distinct(boids) && |f0| == boids.Length && i < boids.Length
      requires FlockOf(boids) == SearchedFlock(f0, NearLinks(f0, neighbourRadSqr), i, i + 1)
      modifies boids[..]
      ensures FlockOf(boids) == SearchedFlock(f0, NearLinks(f0, neighbourRadSqr), i + 1, i + 2)
    {
      ghost var links := NearLinks(f0, neighbourRadSqr);
      assert FlockOf(boids)[i] == boids[i].State();
      var boidPos := boids[i].position;
      for j := i + 1 to boids.Length
        invariant FlockOf(boids) == SearchedFlock(f0, links, i, j)
      {
        assert FlockOf(boids)[j] == boids[j].State();
        var distanceSquared := SqrMagnitude(Sub(boids[j].position, boidPos));
        SearchPair(boids, f0, links, i, j, distanceSquared <= neighbourRadSqr);
      }
      SearchedFlockRow(f0, links, i);
    }

    /** The loop of `FixedUpdate` once the search is done: every boid in array order,
        each one steered from the lists, positions and velocities its predecessors left
        behind. */
    method SteerAll(sqrt: real -> real, turns: seq<Vec3>)
      requires Valid() && |turns| == boids.Length
      requires Pass(sqrt, settings, turns, FlockOf(boids), 0).Some?
      modifies boids[..]
      ensures Valid()
      ensures FlockOf(boids) == old(Pass(sqrt, settings, turns, FlockOf(boids), 0)).value
    {
      ghost var target := Pass(sqrt, settings, turns, FlockOf(boids), 0);
      PassClears(sqrt, settings, turns, FlockOf(boids), 0);
      assert IndicesIn(target.value);
      SteerEach(sqrt, turns, target);
    }

    /** The loop itself: after boid `i`'s turn, what is left of the pass still ends
        where the whole pass does. */
    method SteerEach(sqrt: real -> real, turns: seq<Vec3>, ghost target: Option<seq<AgentState>>)
      requires Distinct(boids) && |turns| == boids.Length
      requires target.Some? && Pass(sqrt, settings, turns, FlockOf(boids), 0) == target
      modifies boids[..]
      ensures Distinct(boids) && FlockOf(boids) == target.value
    {
      ghost var f := FlockOf(boids);
      for i := 0 to boids.Length
        invariant Distinct(boids) && f == FlockOf(boids)
        invariant Pass(sqrt, settings, turns, f, i) == target
      {
        SteerNext(sqrt, turns, i, target);
        f := FlockOf(boids);
      }
    }

    /** One iteration of the loop of `SteerAll`: boid `i` takes its turn, and what is
        left of the pass still ends where the whole pass does. */
    method SteerNext(sqrt: real -> real, turns: seq<Vec3>, i: nat, ghost target: Option<seq<AgentState>>)
      requires Distinct(boids) && |turns| == boids.Length && i < boids.Length
      requires target.Some? && Pass(sqrt, settings, turns, FlockOf(boids), i) == target
      modifies boids[i]
      ensures Distinct(boids)
      ensures Pass(sqrt, settings, turns, FlockOf(boids), i + 1) == target
    {
      PassStep(sqrt, settings, turns, FlockOf(boids), i);
      UpdateBoid(sqrt, i, turns[i]);
    }

    /** One turn of the loop of `FixedUpdate`: the steering sum set as the velocity only
        when it is not zero, then `UpdatePosition` and `ClearNeighbours`. */
    method UpdateBoid(sqrt: real -> real, i: nat, turned: Vec3)
      requires Distinct(boids) && Steerable(settings.rules, FlockOf(boids), i)
      modifies boids[i]
      ensures Distinct(boids)
      ensures FlockOf(boids) ==
        old(FlockOf(boids))[i := SteeredBoid(sqrt, settings, turned, old(FlockOf(boids)), i)]
    {
      ghost var f := FlockOf(boids);
      var newVelocity := SteeringVelocity(sqrt, i);
      SteeredBoidOf(sqrt, settings, turned, f, i, newVelocity);
      MoveBoid(sqrt, i, newVelocity, turned);
    }

    /** The moving half of a turn: the velocity replaced only by a non-zero sum, then
        `UpdatePosition` and `ClearNeighbours` on boid `i` alone. */
    method MoveBoid(sqrt: real -> real, i: nat, newVelocity: Vec3, turned: Vec3)
      requires Distinct(boids) && i < boids.Length
      modifies boids[i]
      ensures Distinct(boids)
      ensures var b := old(FlockOf(boids))[i];
        FlockOf(boids) == old(FlockOf(boids))[i :=
          Integrate(sqrt, if newVelocity != Zero then b.(velocity := newVelocity) else b,
                    turned, settings.motion).(neighbours := [])]
    {
      ghost var f := FlockOf(boids);
      ApplyTurn(sqrt, boids[i], newVelocity, turned, settings.motion);
      ghost var b := if newVelocity != Zero then f[i].(velocity := newVelocity) else f[i];
      ghost var moved := Integrate(sqrt, b, turned, settings.motion).(neighbours := []);
      assert boids[i].State() == moved;
      forall k | 0 <= k < boids.Length
        ensures boids[k].State() == f[i := moved][k]
      {
        if k != i {
          assert boids[k] != boids[i];
        }
      }
      FlockOfPointwise(boids, f[i := moved]);
    }

    /** The steering half of a turn of the loop of `FixedUpdate`: each enabled rule
        evaluated and added with its weight, avoidance only when the scene has obstacles. */
    method SteeringVelocity(sqrt: real -> real, i: nat) returns (newVelocity: Vec3)
      requires Distinct(boids) && Steerable(settings.rules, FlockOf(boids), i)
      ensures newVelocity == Steer(sqrt, settings, FlockOf(boids), i)
    {
      newVelocity := RulesVelocity(sqrt, i);
      if |settings.obstacles| > 0 {
        if settings.enableAvoidance {
          var avoidance := CalculateAvoidance(boids, i, sqrt, settings.obstacles, settings.avoidanceDistance);
          newVelocity := Add(newVelocity, Scale(avoidance, settings.avoidanceFactor));
        }
      }
    }

    /** The three neighbour rules of a turn, each evaluated only when it is on. */
    method RulesVelocity(sqrt: real -> real, i: nat) returns (newVelocity: Vec3)
      requires Distinct(boids) && Steerable(settings.rules, FlockOf(boids), i)
      ensures newVelocity == WeightedRules(sqrt, settings.rules, FlockOf(boids), i)
    {
      ghost var f := FlockOf(boids);
      newVelocity := AddSeparation(sqrt, i, Zero);
      assert FlockOf(boids) == f;
      newVelocity := AddAlignment(sqrt, i, newVelocity);
      assert FlockOf(boids) == f;
      newVelocity := AddCohesion(sqrt, i, newVelocity);
    }

    /** The separation block of the loop: when the rule is on, its force weighted by the
        separation factor is added to the running sum. */
    method AddSeparation(sqrt: real -> real, i: nat, sum: Vec3) returns (newVelocity: Vec3)
      requires Steerable(settings.rules, FlockOf(boids), i)
      ensures var rules := settings.rules;
        newVelocity == if rules.enableSeparation then
          Add(sum, Scale(Separation(sqrt, boids[i].position, NeighbourPositions(FlockOf(boids), i),
                                    Square(rules.separationValue)), rules.separationFactor))
        else sum
    {
      newVelocity := sum;
      if settings.rules.enableSeparation {
        var separation := CalculateSeparation(boids, i, sqrt, settings.rules.separationValue);
        newVelocity := Add(newVelocity, Scale(separation, settings.rules.separationFactor));
      }
    }

    /** The alignment block of the loop. */
    method AddAlignment(sqrt: real -> real, i: nat, sum: Vec3) returns (newVelocity: Vec3)
      requires IndicesIn(FlockOf(boids)) && i < boids.Length
      ensures var rules := settings.rules;
        newVelocity == if rules.enableAlignment then
          Add(sum, Scale(Alignment(sqrt, NeighbourVelocities(FlockOf(boids), i)), rules.alignmentFactor))
        else sum
    {
      newVelocity := sum;
      if settings.rules.enableAlignment {
        var alignment := CalculateAlignment(boids, i, sqrt);
        newVelocity := Add(newVelocity, Scale(alignment, settings.rules.alignmentFactor));
      }
    }

    /** The cohesion block of the loop. */
    method AddCohesion(sqrt: real -> real, i: nat, sum: Vec3) returns (newVelocity: Vec3)
      requires IndicesIn(FlockOf(boids)) && i < boids.Length
      ensures var rules := settings.rules;
        newVelocity == if rules.enableCohesion then
          Add(sum, Scale(Cohesion(boids[i].position, NeighbourPositions(FlockOf(boids), i)), rules.cohesionFactor))
        else sum
    {
      newVelocity := sum;
      if settings.rules.enableCohesion {
        var cohesion := CalculateCohesion(boids, i);
        newVelocity := Add(newVelocity, Scale(cohesion, settings.rules.cohesionFactor));
      }
    }
  }
}
