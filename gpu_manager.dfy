/** `ComputeBoidManager`: the manager whose neighbour search runs in a compute shader.
    The shader's result arrives as a buffer of integers, one slot per pair of boids in
    row order (see `Pairs`); the manager unpacks it into the boids' neighbour lists and
    then steers every boid in turn with the fused `CalculateRules`. */
module GpuManager {
  import opened Vectors
  import opened Steering
  import opened Agents
  import opened NeighbourSearch
  import opened Flocking
  import opened Pairs

  /** The pairs the shader's buffer links: those whose slot exists and holds 1. */
  function BufferLinks(n: nat, output: seq<int>): Links
  {
    (a: nat, b: nat) => a < b < n && PairIndex(n, a, b) < |output| && output[PairIndex(n, a, b)] == 1
  }

  /** When the buffer has a slot for every pair, a pair is linked exactly when its slot
      holds 1; any other value links nothing. */
  lemma BufferLinksFull(n: nat, output: seq<int>, a: nat, b: nat)
    requires PairCount(n) <= |output| && a < b < n
    ensures PairIndex(n, a, b) < |output|
    ensures BufferLinks(n, output)(a, b) <==> output[PairIndex(n, a, b)] == 1
  {
    PairIndexInRange(n, a, b);
  }

  /** With a buffer of the corrected size, every pair is read: a pair is linked exactly
      when its slot holds 1, whatever the parity of the count. */
  lemma CorrectedBufferLinks(n: nat, output: seq<int>, a: nat, b: nat)
    requires |output| == PairBufferSize(n) && a < b < n
    ensures PairIndex(n, a, b) < |output|
    ensures BufferLinks(n, output)(a, b) <==> output[PairIndex(n, a, b)] == 1
  {
    PairBufferSizeExact(n);
    BufferLinksFull(n, output, a, b);
  }

  /** What the manager reads besides the boids. */
  datatype Settings = Settings(updatePosition: bool, rules: Rules, motion: Motion)

  /** Whether boid `i` can be steered in flock `f`: its neighbour indices are valid and no
      neighbour shares its position (the separation rule would divide by zero). */
  predicate Steerable(rules: Rules, f: seq<AgentState>, i: nat)
  {
    IndicesIn(f) && i < |f| &&
    SeparationDefined(f[i].position, NeighbourPositions(f, i), Square(rules.separationValue))
  }

  /** The velocity the loop of `FixedUpdate` gives boid `i`: the weighted sum of the three
      rules, all zero when the boid has no neighbours. */
  function Steer(sqrt: real -> real, rules: Rules, f: seq<AgentState>, i: nat): Vec3
    requires Steerable(rules, f, i)
  {
    if f[i].neighbours == [] then RuleSum(rules, Zero, Zero, Zero)
    else
      var qs := NeighbourPositions(f, i);
      RuleSum(rules, Separation(sqrt, f[i].position, qs, Square(rules.separationValue)),
              Alignment(sqrt, NeighbourVelocities(f, i)), Cohesion(f[i].position, qs))
  }

  /** Boid `i` after its turn: velocity set to the steering sum, moved, list cleared. */
  function SteeredBoid(sqrt: real -> real, s: Settings, turned: Vec3, f: seq<AgentState>, i: nat): AgentState
    requires Steerable(s.rules, f, i)
  {
    Integrate(sqrt, f[i].(velocity := Steer(sqrt, s.rules, f, i)), turned, s.motion).(neighbours := [])
  }

  /** The loop of `FixedUpdate` from boid `i` on, in place: each boid is steered from the
      flock as the boids before it have already left it. `None` when some boid on the way
      cannot be steered. */
  function Pass(sqrt: real -> real, s: Settings, turns: seq<Vec3>, f: seq<AgentState>, i: nat): Option<seq<AgentState>>
    requires |turns| == |f| && i <= |f|
    decreases |f| - i
  {
    if i == |f| then Some(f)
    else if !Steerable(s.rules, f, i) then None
    else Pass(sqrt, s, turns, f[i := SteeredBoid(sqrt, s, turns[i], f, i)], i + 1)
  }

  /** One `FixedUpdate`: the search first; when the buffer is too short the unpacking
      throws and the update ends there; when updates are off it ends after the search. */
  function Tick(sqrt: real -> real, s: Settings, turns: seq<Vec3>, f0: seq<AgentState>, output: seq<int>): Option<seq<AgentState>>
    requires |turns| == |f0|
  {
    var f := Search(f0, BufferLinks(|f0|, output));
    if |f0| % 2 == 1 || !s.updatePosition then Some(f)
    else Pass(sqrt, s, turns, f, 0)
  }

  // ------------------------------------------------------------ tick properties

  /** One step of a pass that goes through: boid `i` can be steered, and the rest of the
      pass starts from the flock with that boid updated. */
  lemma PassStep(sqrt: real -> real, s: Settings, turns: seq<Vec3>, f: seq<AgentState>, i: nat)
    requires |turns| == |f| && i < |f| && Pass(sqrt, s, turns, f, i).Some?
    ensures Steerable(s.rules, f, i)
    ensures Pass(sqrt, s, turns, f, i) == Pass(sqrt, s, turns, f[i := SteeredBoid(sqrt, s, turns[i], f, i)], i + 1)
  {
  }

  /** A pass leaves the boids before `i` as they were, and every boid from `i` on with an
      empty neighbour list. */
  lemma {:induction false} PassClears(sqrt: real -> real, s: Settings, turns: seq<Vec3>, f: seq<AgentState>, i: nat)
    requires |turns| == |f| && i <= |f| && Pass(sqrt, s, turns, f, i).Some?
    ensures var g := Pass(sqrt, s, turns, f, i).value;
      |g| == |f| &&
      (forall k :: 0 <= k < i ==> g[k] == f[k]) &&
      (forall k :: i <= k < |g| ==> g[k].neighbours == [])
    decreases |f| - i
  {
    if i < |f| {
      PassClears(sqrt, s, turns, f[i := SteeredBoid(sqrt, s, turns[i], f, i)], i + 1);
    }
  }

  /** With updates on and an even number of boids, every list is empty after the tick. */
  lemma TickClearsLists(sqrt: real -> real, s: Settings, turns: seq<Vec3>, f0: seq<AgentState>, output: seq<int>)
    requires |turns| == |f0| && |f0| % 2 == 0 && s.updatePosition
    requires Tick(sqrt, s, turns, f0, output).Some?
    ensures var g := Tick(sqrt, s, turns, f0, output).value;
      |g| == |f0| && forall k :: 0 <= k < |g| ==> g[k].neighbours == []
  {
    PassClears(sqrt, s, turns, Search(f0, BufferLinks(|f0|, output)), 0);
  }

  /** With an odd number of boids, or with updates off, a tick only searches: no boid
      moves or changes velocity, and every list keeps its old entries and grows by the
      boids found. */
  lemma TickOnlySearches(sqrt: real -> real, s: Settings, turns: seq<Vec3>, f0: seq<AgentState>, output: seq<int>)
    requires |turns| == |f0| && (|f0| % 2 == 1 || !s.updatePosition)
    ensures Tick(sqrt, s, turns, f0, output).Some?
    ensures var g := Tick(sqrt, s, turns, f0, output).value;
      |g| == |f0| &&
      forall k :: 0 <= k < |g| ==>
        g[k].position == f0[k].position && g[k].velocity == f0[k].velocity &&
        g[k].forward == f0[k].forward &&
        g[k].neighbours[..|f0[k].neighbours|] == f0[k].neighbours
  {
    var g := Tick(sqrt, s, turns, f0, output).value;
    forall k | 0 <= k < |g|
      ensures g[k].neighbours[..|f0[k].neighbours|] == f0[k].neighbours
    {
      assert g[k].neighbours == f0[k].neighbours + Found(BufferLinks(|f0|, output), k, |f0|);
    }
  }

  /** The velocity a boid takes is the steering sum even when that sum is zero: the old
      velocity is then dropped and the boid sets off along its forward axis. */
  lemma ZeroSumDropsVelocity(sqrt: real -> real, s: Settings, turned: Vec3, f: seq<AgentState>, i: nat)
    requires Steerable(s.rules, f, i) && Steer(sqrt, s.rules, f, i) == Zero
    ensures SteeredBoid(sqrt, s, turned, f, i).velocity ==
      Scale(turned, Clamp(Magnitude(sqrt, f[i].forward), s.motion.minSpeed, s.motion.maxSpeed))
  {
  }

  /** A boid without neighbours gets a zero steering sum, whatever the weights. */
  lemma LonelyBoidSteersZero(sqrt: real -> real, rules: Rules, f: seq<AgentState>, i: nat)
    requires Steerable(rules, f, i) && f[i].neighbours == []
    ensures Steer(sqrt, rules, f, i) == Zero
  {
    ScaleZero(rules.separationFactor);
    ScaleZero(rules.alignmentFactor);
    ScaleZero(rules.cohesionFactor);
  }

  /** When the running slot index reaches the end of the buffer inside row `i`, the count
      is odd and no pair from `(i, j)` on is linked, so the lists already hold the full
      search. */
  lemma ShortRowEndsSearch(f0: seq<AgentState>, n: nat, output: seq<int>, i: nat, j: nat)
    requires |f0| == n && i < j < n && PairIndex(n, i, j) >= |output|
    requires GetRunningTotal(n) < 0 || |output| == GetRunningTotal(n)
    ensures n % 2 == 1
    ensures SearchedFlock(f0, BufferLinks(n, output), i, j) == Search(f0, BufferLinks(n, output))
  {
    StopsShort(n, output, i, j);
    SearchedFlockStop(f0, BufferLinks(n, output), i, j);
  }

  // ------------------------------------------------------------ the manager

  class ComputeBoidManager {
    const boids: array<ComputeBoid>
    const settings: Settings

    /** The array holds distinct boids whose neighbour indices name boids of the array. */
    ghost predicate Valid()
      reads this, boids, boids[..]
    {
      Distinct(boids) && IndicesIn(FlockOf(boids))
    }

    constructor(boids: array<ComputeBoid>, settings: Settings)
      ensures this.boids == boids && this.settings == settings
    {
      this.boids := boids;
      this.settings := settings;
    }

    /** The unpacking half of `PerformNeighbourSearch`: walk the pairs in row order with a
        running slot index and link each pair whose slot holds 1. `completed` is false
        when the code throws instead: the buffer size is negative (one boid) or a slot
        index runs past the buffer (any odd count). Either way the lists hold what
        `Search` gives for the buffer's links, since the unread slots lie past its end. */
    method PerformNeighbourSearch(output: seq<int>) returns (completed: bool)
      requires Valid()
      requires GetRunningTotal(boids.Length) < 0 || |output| == GetRunningTotal(boids.Length)
      modifies boids[..]
      ensures Valid()
      ensures completed <==> boids.Length % 2 == 0
      ensures FlockOf(boids) == Search(old(FlockOf(boids)), BufferLinks(boids.Length, output))
    {
      var n := boids.Length;
      ghost var f0 := FlockOf(boids);
      ghost var links := BufferLinks(n, output);
      SearchIndicesIn(f0, links);
      SearchedFlockStart(f0, links);
      var neighbourBufferSize := GetRunningTotal(n);
      if neighbourBufferSize < 0 {
        RunningTotalNegative(n);
        SearchedFlockStop(f0, links, 0, 1);
        return false;
      }
      var neighbourBufferIndex := 0;
      for i := 0 to n
        invariant neighbourBufferIndex == RowStart(n, i) <= |output|
        invariant FlockOf(boids) == SearchedFlock(f0, links, i, i + 1)
      {
        var rowCompleted;
        rowCompleted, neighbourBufferIndex := UnpackRow(output, f0, i, neighbourBufferIndex);
        if !rowCompleted {
          return false;
        }
      }
      SearchedFlockEnd(f0, links);
      RunningTotalCoversPairs(n);
      completed := true;
    }

    /** Row `i` of the unpacking: the pairs `(i, i + 1) .. (i, n - 1)` at consecutive
        slots from `start`. `completed` is false when a slot index runs past the buffer,
        which happens only for an odd count and leaves the full search in place. */
    method UnpackRow(output: seq<int>, ghost f0: seq<AgentState>, i: nat, start: nat)
      returns (completed: bool, next: nat)
      requires Distinct(boids) && |f0| == boids.Length
      requires GetRunningTotal(boids.Length) < 0 || |output| == GetRunningTotal(boids.Length)
      requires i < boids.Length && start == RowStart(boids.Length, i) <= |output|
      requires FlockOf(boids) == SearchedFlock(f0, BufferLinks(boids.Length, output), i, i + 1)
      modifies boids[..]
      ensures completed ==> next == RowStart(boids.Length, i + 1) <= |output|
      ensures completed ==> FlockOf(boids) == SearchedFlock(f0, BufferLinks(boids.Length, output), i + 1, i + 2)
      ensures !completed ==> boids.Length % 2 == 1
      ensures !completed ==> FlockOf(boids) == Search(f0, BufferLinks(boids.Length, output))
    {
      var n := boids.Length;
      ghost var links := BufferLinks(n, output);
      next := start;
      for j := i + 1 to n
        invariant next == RowStart(n, i) + (j - i - 1) <= |output|
        invariant FlockOf(boids) == SearchedFlock(f0, links, i, j)
      {
        if next >= |output| {
          ShortRowEndsSearch(f0, n, output, i, j);
          return false, next;
        }
        SearchPair(boids, f0, links, i, j, output[next] == 1);
        next := next + 1;
      }
      SearchedFlockRow(f0, links, i);
      completed := true;
    }

    /** `FixedUpdate`: search, stop when the unpacking threw or updates are off, then steer,
        move and clear every boid in array order. `turns` holds the forward axis each
        boid's rotation step produces. */
    method FixedUpdate(sqrt: real -> real, output: seq<int>, turns: seq<Vec3>)
      requires Valid() && |turns| == boids.Length
      requires GetRunningTotal(boids.Length) < 0 || |output| == GetRunningTotal(boids.Length)
      requires Tick(sqrt, settings, turns, FlockOf(boids), output).Some?
      modifies boids[..]
      ensures Valid()
      ensures FlockOf(boids) == Tick(sqrt, settings, turns, old(FlockOf(boids)), output).value
    {
      var completed := PerformNeighbourSearch(output);
      if !completed || !settings.updatePosition {
        return;
      }
      SteerAll(sqrt, turns);
    }

    /** The loop of `FixedUpdate` once the search is done: every boid in array order,
        each one steered from the lists and positions its predecessors left behind. */
    method SteerAll(sqrt: real -> real, turns: seq<Vec3>)
      requires Valid() && |turns| == boids.Length
      requires Pass(sqrt, settings, turns, FlockOf(boids), 0).Some?
      modifies boids[..]
      ensures Valid()
      ensures FlockOf(boids) == old(Pass(sqrt, settings, turns, FlockOf(boids), 0)).value
    {
      ghost var target := Pass(sqrt, settings, turns, FlockOf(boids), 0);
      PassClears(sqrt, settings, turns, FlockOf(boids), 0);
      assert IndicesIn(target.value);
      SteerEach(sqrt, turns, target);
    }

    /** The loop itself: after boid `i`'s turn, what is left of the pass still ends
        where the whole pass does. */
    method SteerEach(sqrt: real -> real, turns: seq<Vec3>, ghost target: Option<seq<AgentState>>)
      requires Distinct(boids) && |turns| == boids.Length
      requires target.Some? && Pass(sqrt, settings, turns, FlockOf(boids), 0) == target
      modifies boids[..]
      ensures Distinct(boids) && FlockOf(boids) == target.value
    {
      ghost var f := FlockOf(boids);
      for i := 0 to boids.Length
        invariant Distinct(boids) && f == FlockOf(boids)
        invariant Pass(sqrt, settings, turns, f, i) == target
      {
        SteerNext(sqrt, turns, i, target);
        f := FlockOf(boids);
      }
    }

    /** One iteration of the loop: boid `i` takes its turn. */
    method SteerNext(sqrt: real -> real, turns: seq<Vec3>, i: nat, ghost target: Option<seq<AgentState>>)
      requires Distinct(boids) && |turns| == boids.Length && i < boids.Length
      requires target.Some? && Pass(sqrt, settings, turns, FlockOf(boids), i) == target
      modifies boids[i]
      ensures Distinct(boids)
      ensures Pass(sqrt, settings, turns, FlockOf(boids), i + 1) == target
    {
      PassStep(sqrt, settings, turns, FlockOf(boids), i);
      UpdateBoid(sqrt, i, turns[i]);
    }

    /** One turn of the loop of `FixedUpdate`: the steering sum set as the velocity, then
        `UpdatePosition` and `ClearNeighbours`. */
    method UpdateBoid(sqrt: real -> real, i: nat, turned: Vec3)
      requires Distinct(boids) && Steerable(settings.rules, FlockOf(boids), i)
      modifies boids[i]
      ensures Distinct(boids)
      ensures FlockOf(boids) ==
        old(FlockOf(boids))[i := SteeredBoid(sqrt, settings, turned, old(FlockOf(boids)), i)]
    {
      var newVelocity := SteeringVelocity(sqrt, i);
      MoveBoid(sqrt, i, newVelocity, turned);
    }

    /** The moving half of a turn: `SetBoidVelocity`, `UpdatePosition` and
        `ClearNeighbours` on boid `i` alone. */
    method MoveBoid(sqrt: real -> real, i: nat, newVelocity: Vec3, turned: Vec3)
      requires Distinct(boids) && i < boids.Length
      modifies boids[i]
      ensures Distinct(boids)
      ensures FlockOf(boids) == old(FlockOf(boids))[i :=
        Integrate(sqrt, old(FlockOf(boids))[i].(velocity := newVelocity), turned, settings.motion).(neighbours := [])]
    {
      ghost var f := FlockOf(boids);
      var boid := boids[i];
      boid.SetBoidVelocity(newVelocity);
      boid.UpdatePosition(sqrt, turned, settings.motion);
      boid.ClearNeighbours();
      ghost var moved := Integrate(sqrt, f[i].(velocity := newVelocity), turned, settings.motion).(neighbours := []);
      forall k | 0 <= k < boids.Length
        ensures boids[k].State() == f[i := moved][k]
      {
        if k != i {
          assert boids[k] != boids[i];
        }
      }
      FlockOfPointwise(boids, f[i := moved]);
    }

    /** The steering half of a turn of the loop of `FixedUpdate`: `CalculateRules` into
        zeroed vectors, then the enabled rules weighted and added in order. */
    method SteeringVelocity(sqrt: real -> real, i: nat) returns (newVelocity: Vec3)
      requires Distinct(boids) && Steerable(settings.rules, FlockOf(boids), i)
      ensures newVelocity == Steer(sqrt, settings.rules, FlockOf(boids), i)
    {
      var rules := settings.rules;
      var separation, alignment, cohesion := Zero, Zero, Zero;
      separation, alignment, cohesion :=
        CalculateRules(boids, i, sqrt, rules.separationValue, separation, alignment, cohesion);
      if boids[i].neighbours == [] {
        LonelyBoidSteersZero(sqrt, rules, FlockOf(boids), i);
        AllZeroRules(rules);
      }
      newVelocity := Zero;
      if rules.enableSeparation {
        newVelocity := Add(newVelocity, Scale(separation, rules.separationFactor));
      }
      if rules.enableAlignment {
        newVelocity := Add(newVelocity, Scale(alignment, rules.alignmentFactor));
      }
      if rules.enableCohesion {
        newVelocity := Add(newVelocity, Scale(cohesion, rules.cohesionFactor));
      }
    }
  }

  /** Helper for `ComputeBoidManager.SteeringVelocity`: summing three zero rules gives zero. */
  lemma AllZeroRules(rules: Rules)
    ensures RuleSum(rules, Zero, Zero, Zero) == Zero
  {
    ScaleZero(rules.separationFactor);
    ScaleZero(rules.alignmentFactor);
    ScaleZero(rules.cohesionFactor);
  }

  /** The unpacking stops at pair `(i, j)` whose slot lies past the buffer: every later
      pair's slot does too, so none of them is linked; and the count is odd, since an
      even count fits. */
  lemma StopsShort(n: nat, output: seq<int>, i: nat, j: nat)
    requires i < j < n && PairIndex(n, i, j) >= |output|
    requires GetRunningTotal(n) < 0 || |output| == GetRunningTotal(n)
    ensures forall a: nat, b: nat :: a < b < n && AtOrAfter(i, j, a, b) ==> !BufferLinks(n, output)(a, b)
    ensures n % 2 == 1
  {
    forall a: nat, b: nat | a < b < n && AtOrAfter(i, j, a, b)
      ensures !BufferLinks(n, output)(a, b)
    {
      if (a, b) != (i, j) {
        PairIndexOrdered(n, i, j, a, b);
      }
    }
    PairIndexInRange(n, i, j);
    RunningTotalCoversPairs(n);
  }
}
