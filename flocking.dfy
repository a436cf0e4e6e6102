/** What both managers share: the flock as a sequence of boid states, the neighbour
    lists a pairwise search leaves, and the rule evaluations that walk one boid's
    neighbour list (`CalculateSeparation`, `CalculateAlignment`, `CalculateCohesion`,
    `CalculateAvoidance` and the fused `CalculateRules`) over the managers' array of boids. */
module Flocking {
  import opened Vectors
  import opened Obstacles
  import opened Steering
  import opened Agents
  import opened NeighbourSearch

  datatype Option<T> = None | Some(value: T)

  // ------------------------------------------------------------- flock values

  /** The positions of boid `k`'s neighbours, in list order, as the flock has them now. */
  function NeighbourPositions(f: seq<AgentState>, k: nat): seq<Vec3>
    requires IndicesIn(f) && k < |f|
  {
    seq(|f[k].neighbours|, t requires 0 <= t < |f[k].neighbours| => f[f[k].neighbours[t]].position)
  }

  /** The velocities of boid `k`'s neighbours, in list order. */
  function NeighbourVelocities(f: seq<AgentState>, k: nat): seq<Vec3>
    requires IndicesIn(f) && k < |f|
  {
    seq(|f[k].neighbours|, t requires 0 <= t < |f[k].neighbours| => f[f[k].neighbours[t]].velocity)
  }

  // ------------------------------------------------------------ rule weights

  /** The weighted sum of the three neighbour rules, each only when switched on, in the
      order the managers add them. */
  function RuleSum(rules: Rules, separation: Vec3, alignment: Vec3, cohesion: Vec3): Vec3
  {
    var v0 := Zero;
    var v1 := if rules.enableSeparation then Add(v0, Scale(separation, rules.separationFactor)) else v0;
    var v2 := if rules.enableAlignment then Add(v1, Scale(alignment, rules.alignmentFactor)) else v1;
    if rules.enableCohesion then Add(v2, Scale(cohesion, rules.cohesionFactor)) else v2
  }

  /** A disabled rule contributes nothing: whatever it would compute, the sum is the same. */
  lemma DisabledRuleIgnored(rules: Rules, s1: Vec3, s2: Vec3, a1: Vec3, a2: Vec3, c1: Vec3, c2: Vec3)
    requires rules.enableSeparation ==> s1 == s2
    requires rules.enableAlignment ==> a1 == a2
    requires rules.enableCohesion ==> c1 == c2
    ensures RuleSum(rules, s1, a1, c1) == RuleSum(rules, s2, a2, c2)
  {
  }

  /** With every rule switched off the sum is zero. */
  lemma AllRulesOff(rules: Rules, s: Vec3, a: Vec3, c: Vec3)
    requires !rules.enableSeparation && !rules.enableAlignment && !rules.enableCohesion
    ensures RuleSum(rules, s, a, c) == Zero
  {
  }

  // ---------------------------------------------------- the boids as objects

  /** The states of the boids the array holds. */
  ghost function FlockOf(boids: array<ComputeBoid>): (f: seq<AgentState>)
    reads boids, boids[..]
    ensures |f| == boids.Length
  {
    seq(boids.Length, k requires 0 <= k < boids.Length reads boids, boids[..] => boids[k].State())
  }

  /** The array holds each boid once. */
  ghost predicate Distinct(boids: array<ComputeBoid>)
    reads boids
  {
    forall a, b :: 0 <= a < b < boids.Length ==> boids[a] != boids[b]
  }

  /** Two views of the boids agree when every boid agrees. */
  lemma FlockOfPointwise(boids: array<ComputeBoid>, g: seq<AgentState>)
    requires |g| == boids.Length
    requires forall k :: 0 <= k < boids.Length ==> boids[k].State() == g[k]
    ensures FlockOf(boids) == g
  {
  }

  /** The body of both managers' search loops for the pair `(i, j)`: when the pair is
      linked, `j` is appended to boid `i`'s list and `i` to boid `j`'s. */
  method LinkPair(boids: array<ComputeBoid>, i: nat, j: nat, linked: bool)
    requires Distinct(boids) && i < j < boids.Length
    modifies boids[i], boids[j]
    ensures FlockOf(boids) == LinkedPair(old(FlockOf(boids)), i, j, linked)
  {
    ghost var g := FlockOf(boids);
    if linked {
      boids[i].AddNeighbour(j);
      boids[j].AddNeighbour(i);
    }
    FlockOfPointwise(boids, LinkedPair(g, i, j, linked));
  }

  /** One pair of a search that follows `links`: linking `(i, j)` when the pair is linked
      takes the lists from where the search stands before the pair to where it stands
      after it. */
  method SearchPair(boids: array<ComputeBoid>, ghost f0: seq<AgentState>, ghost links: Links,
                    i: nat, j: nat, linked: bool)
    requires Distinct(boids) && i < j < boids.Length && |f0| == boids.Length
    requires linked == links(i, j)
    requires FlockOf(boids) == SearchedFlock(f0, links, i, j)
    modifies boids[i], boids[j]
    ensures FlockOf(boids) == SearchedFlock(f0, links, i, j + 1)
  {
    SearchedFlockPair(f0, links, i, j);
    LinkPair(boids, i, j, linked);
  }

  /** `CalculateSeparation` (both managers). */
  method CalculateSeparation(boids: array<ComputeBoid>, i: nat, sqrt: real -> real, separationValue: real)
    returns (separationForce: Vec3)
    requires i < boids.Length && IndicesIn(FlockOf(boids))
    requires SeparationDefined(boids[i].position, NeighbourPositions(FlockOf(boids), i), Square(separationValue))
    ensures separationForce ==
      Separation(sqrt, boids[i].position, NeighbourPositions(FlockOf(boids), i), Square(separationValue))
  {
    var boid := boids[i];
    var count := boid.GetNeighbourCount();
    if count == 0 {
      return Zero;
    }
    separationForce := Zero;
    var boidPosition := boid.position;
    var separationDistSqr := separationValue * separationValue;
    ghost var qs := NeighbourPositions(FlockOf(boids), i);
    var neighbours := boid.IterateNeighbours();
    for t := 0 to |neighbours|
      invariant SeparationDefined(boidPosition, qs[..t], separationDistSqr)
      invariant separationForce == SeparationSum(sqrt, boidPosition, qs[..t], separationDistSqr)
    {
      SeparationSumStep(sqrt, boidPosition, qs, t, separationDistSqr);
      var neighbour := boids[neighbours[t]];
      assert neighbour.position == qs[t];
      var difference := Sub(boidPosition, neighbour.position);
      var distanceSqr := SqrMagnitude(difference);
      if distanceSqr < separationDistSqr {
        SubZero(boidPosition, neighbour.position);
        var separate := difference;
        separate := Normalize(sqrt, separate);
        separate := Div(separate, distanceSqr);
        separationForce := Add(separationForce, separate);
      }
    }
    assert qs[..|neighbours|] == qs;
  }

  /** `CalculateAlignment` (both managers): the heading variable is overwritten by each
      neighbour in turn. */
  method CalculateAlignment(boids: array<ComputeBoid>, i: nat, sqrt: real -> real)
    returns (alignmentForce: Vec3)
    requires i < boids.Length && IndicesIn(FlockOf(boids))
    ensures alignmentForce == Alignment(sqrt, NeighbourVelocities(FlockOf(boids), i))
  {
    var boid := boids[i];
    var count := boid.GetNeighbourCount();
    if count == 0 {
      return Zero;
    }
    ghost var vs := NeighbourVelocities(FlockOf(boids), i);
    var sumHeading := Zero;
    var neighbours := boid.IterateNeighbours();
    for t := 0 to |neighbours|
      invariant sumHeading == OverwrittenHeading(sqrt, vs[..t])
    {
      OverwrittenHeadingStep(sqrt, vs, t);
      var velocity := boids[neighbours[t]].GetBoidVelocity();
      sumHeading := Normalize(sqrt, velocity);
    }
    assert vs[..|neighbours|] == vs;
    alignmentForce := Div(sumHeading, count as real);
  }

  /** `CalculateCohesion` (both managers). */
  method CalculateCohesion(boids: array<ComputeBoid>, i: nat) returns (cohesionForce: Vec3)
    requires i < boids.Length && IndicesIn(FlockOf(boids))
    ensures cohesionForce == Cohesion(boids[i].position, NeighbourPositions(FlockOf(boids), i))
  {
    var boid := boids[i];
    var count := boid.GetNeighbourCount();
    if count == 0 {
      return Zero;
    }
    ghost var qs := NeighbourPositions(FlockOf(boids), i);
    var averagePosition := Zero;
    var neighbours := boid.IterateNeighbours();
    for t := 0 to |neighbours|
      invariant averagePosition == PositionSum(qs[..t])
    {
      PositionSumStep(qs, t);
      averagePosition := Add(averagePosition, boids[neighbours[t]].position);
    }
    assert qs[..|neighbours|] == qs;
    averagePosition := Div(averagePosition, count as real);
    cohesionForce := Sub(averagePosition, boids[i].position);
  }

  /** `BoidManager.CalculateAvoidance`: probe ahead along the heading, add the push of
      every obstacle that reports a collision there, normalise the sum. */
  method CalculateAvoidance(boids: array<ComputeBoid>, i: nat, sqrt: real -> real,
                            obstacles: seq<Obstacle>, avoidanceDistance: real)
    returns (avoidanceForce: Vec3)
    requires i < boids.Length
    ensures avoidanceForce ==
      Avoidance(sqrt, obstacles, boids[i].position, boids[i].velocity, avoidanceDistance)
  {
    var boid := boids[i];
    var velocity := boid.GetBoidVelocity();
    var aheadVector := Scale(Normalize(sqrt, velocity), avoidanceDistance);
    var aheadPosition := Add(boid.position, aheadVector);
    avoidanceForce := SumPushes(sqrt, obstacles, aheadPosition);
    avoidanceForce := Normalize(sqrt, avoidanceForce);
  }

  /** The loop of `CalculateAvoidance` over the obstacles. */
  method SumPushes(sqrt: real -> real, obstacles: seq<Obstacle>, aheadPosition: Vec3)
    returns (avoidanceForce: Vec3)
    ensures avoidanceForce == AvoidanceSum(sqrt, obstacles, aheadPosition)
  {
    avoidanceForce := Zero;
    for t := 0 to |obstacles|
      invariant avoidanceForce == AvoidanceSum(sqrt, obstacles[..t], aheadPosition)
    {
      AvoidanceSumStep(sqrt, obstacles, t, aheadPosition);
      var collision := CollidesWith(sqrt, obstacles[t], aheadPosition);
      if collision.hit {
        avoidanceForce := Add(avoidanceForce, collision.force);
      }
    }
    assert obstacles[..|obstacles|] == obstacles;
  }

  /** `ComputeBoidManager.CalculateRules`: one pass over the neighbour list feeding all
      three accumulators. Without neighbours it returns before touching its `ref`
      arguments; otherwise it yields exactly what the three separate rules yield. */
  method CalculateRules(boids: array<ComputeBoid>, i: nat, sqrt: real -> real, separationValue: real,
                        sepForce0: Vec3, alignForce0: Vec3, cohForce0: Vec3)
    returns (sepForce: Vec3, alignForce: Vec3, cohForce: Vec3)
    requires i < boids.Length && IndicesIn(FlockOf(boids))
    requires SeparationDefined(boids[i].position, NeighbourPositions(FlockOf(boids), i), Square(separationValue))
    ensures boids[i].neighbours == [] ==>
      sepForce == sepForce0 && alignForce == alignForce0 && cohForce == cohForce0
    ensures boids[i].neighbours != [] ==>
      sepForce == Separation(sqrt, boids[i].position, NeighbourPositions(FlockOf(boids), i), Square(separationValue)) &&
      alignForce == Alignment(sqrt, NeighbourVelocities(FlockOf(boids), i)) &&
      cohForce == Cohesion(boids[i].position, NeighbourPositions(FlockOf(boids), i))
  {
    sepForce, alignForce, cohForce := sepForce0, alignForce0, cohForce0;
    var boid := boids[i];
    var count := boid.GetNeighbourCount();
    if count == 0 {
      return;
    }
    var sumHeading, averagePosition;
    sepForce, sumHeading, averagePosition := AccumulateRules(boids, i, sqrt, separationValue);
    alignForce := Div(sumHeading, count as real);
    averagePosition := Div(averagePosition, count as real);
    cohForce := Sub(averagePosition, boids[i].position);
  }

  /** The loop of `CalculateRules`: the separation force, the overwritten heading and the
      position sum, all from one walk over the neighbour list. */
  method AccumulateRules(boids: array<ComputeBoid>, i: nat, sqrt: real -> real, separationValue: real)
    returns (sepForce: Vec3, sumHeading: Vec3, averagePosition: Vec3)
    requires i < boids.Length && IndicesIn(FlockOf(boids))
    requires SeparationDefined(boids[i].position, NeighbourPositions(FlockOf(boids), i), Square(separationValue))
    ensures sepForce == SeparationSum(sqrt, boids[i].position, NeighbourPositions(FlockOf(boids), i), Square(separationValue))
    ensures sumHeading == OverwrittenHeading(sqrt, NeighbourVelocities(FlockOf(boids), i))
    ensures averagePosition == PositionSum(NeighbourPositions(FlockOf(boids), i))
  {
    var boid := boids[i];
    var boidPosition := boid.position;
    sepForce := Zero;
    var separationDistSqr := separationValue * separationValue;
    sumHeading := Zero;
    averagePosition := Zero;
    ghost var qs := NeighbourPositions(FlockOf(boids), i);
    ghost var vs := NeighbourVelocities(FlockOf(boids), i);
    var neighbours := boid.IterateNeighbours();
    for t := 0 to |neighbours|
      invariant SeparationDefined(boidPosition, qs[..t], separationDistSqr)
      invariant sepForce == SeparationSum(sqrt, boidPosition, qs[..t], separationDistSqr)
      invariant sumHeading == OverwrittenHeading(sqrt, vs[..t])
      invariant averagePosition == PositionSum(qs[..t])
    {
      SeparationSumStep(sqrt, boidPosition, qs, t, separationDistSqr);
      OverwrittenHeadingStep(sqrt, vs, t);
      PositionSumStep(qs, t);
      var neighbour := boids[neighbours[t]];
      assert neighbour.position == qs[t];
      assert neighbour.velocity == vs[t];
      var velocity := neighbour.GetBoidVelocity();
      sepForce, sumHeading, averagePosition :=
        AbsorbNeighbour(sqrt, boidPosition, separationDistSqr, neighbour.position, velocity,
                        sepForce, averagePosition);
    }
    assert qs[..|neighbours|] == qs;
    assert vs[..|neighbours|] == vs;
  }

  /** The body of the loop in `CalculateRules` for one neighbour: add its separation
      share, overwrite the heading with its normalised velocity, add its position. */
  method AbsorbNeighbour(sqrt: real -> real, boidPosition: Vec3, separationDistSqr: real,
                         position: Vec3, velocity: Vec3, sepForce0: Vec3, averagePosition0: Vec3)
    returns (sepForce: Vec3, sumHeading: Vec3, averagePosition: Vec3)
    requires 0.0 < separationDistSqr ==> boidPosition != position
    ensures sepForce == Add(sepForce0, SeparationTerm(sqrt, boidPosition, position, separationDistSqr))
    ensures sumHeading == Normalize(sqrt, velocity)
    ensures averagePosition == Add(averagePosition0, position)
  {
    sepForce := sepForce0;
    sumHeading := Normalize(sqrt, velocity);
    averagePosition := Add(averagePosition0, position);
    var difference := Sub(boidPosition, position);
    var distanceSqr := SqrMagnitude(difference);
    if distanceSqr < separationDistSqr {
      SubZero(boidPosition, position);
      var separate := difference;
      separate := Normalize(sqrt, separate);
      separate := Div(separate, distanceSqr);
      sepForce := Add(sepForce, separate);
    }
  }
}
