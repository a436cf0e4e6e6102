/** The steering rules each manager evaluates for one boid, as folds over its neighbour
    list in list order: separation, alignment, cohesion and obstacle avoidance. The
    rules see the neighbours only through their positions `qs` and velocities `vs`. */
module Steering {
  import opened Vectors
  import opened Obstacles

  /** The rule switches, distances and weights both managers expose. */
  datatype Rules = Rules(
    enableSeparation: bool, separationValue: real, separationFactor: real,
    enableAlignment: bool, alignmentFactor: real,
    enableCohesion: bool, cohesionFactor: real)

  // ---------------------------------------------------------------- separation

  /** Separation divides by the squared distance of every neighbour closer than the
      separation distance. A neighbour at the boid's own position is at distance zero
      and would be divided by zero, so the rule is only defined when no neighbour
      shares the boid's position, or when no distance is below the separation distance. */
  predicate SeparationDefined(p: Vec3, qs: seq<Vec3>, separationSqr: real)
  {
    0.0 < separationSqr ==> p !in qs
  }

  /** One neighbour's share: the unit vector from the neighbour to the boid, divided by
      their squared distance, for neighbours strictly closer than the separation
      distance; nothing for the others. */
  function SeparationTerm(sqrt: real -> real, p: Vec3, q: Vec3, separationSqr: real): Vec3
    requires 0.0 < separationSqr ==> p != q
  {
    var difference := Sub(p, q);
    var distanceSqr := SqrMagnitude(difference);
    if distanceSqr < separationSqr then
      assert difference != Zero by { SubZero(p, q); }
      Div(Normalize(sqrt, difference), distanceSqr)
    else
      Zero
  }

  lemma SubZero(p: Vec3, q: Vec3)
    ensures Sub(p, q) == Zero <==> p == q
  {
  }

  /** The separation accumulator after the neighbours `qs`, in list order. */
  function SeparationSum(sqrt: real -> real, p: Vec3, qs: seq<Vec3>, separationSqr: real): Vec3
    requires SeparationDefined(p, qs, separationSqr)
  {
    if |qs| == 0 then Zero
    else
      assert qs == qs[..|qs| - 1] + [qs[|qs| - 1]];
      Add(SeparationSum(sqrt, p, qs[..|qs| - 1], separationSqr),
          SeparationTerm(sqrt, p, qs[|qs| - 1], separationSqr))
  }

  /** `CalculateSeparation`: zero without neighbours, else the accumulated terms. */
  function Separation(sqrt: real -> real, p: Vec3, qs: seq<Vec3>, separationSqr: real): Vec3
    requires SeparationDefined(p, qs, separationSqr)
  {
    if |qs| == 0 then Zero else SeparationSum(sqrt, p, qs, separationSqr)
  }

  /** The sum over the neighbours of their offsets to the boid, each weighted. */
  function Combination(p: Vec3, qs: seq<Vec3>, ws: seq<real>): Vec3
    requires |ws| == |qs|
  {
    if |qs| == 0 then Zero
    else Add(Combination(p, qs[..|qs| - 1], ws[..|ws| - 1]),
             Scale(Sub(p, qs[|qs| - 1]), ws[|ws| - 1]))
  }

  lemma DivOfScale(v: Vec3, a: real, d: real)
    requires d != 0.0
    ensures Div(Scale(v, a), d) == Scale(v, a / d)
  {
  }

  lemma QuotientPositive(a: real, d: real)
    requires 0.0 < a && 0.0 < d
    ensures 0.0 < a / d
  {
  }

  /** One separation term is a positive multiple of the offset from the neighbour to
      the boid when the neighbour is too close, and nothing otherwise. */
  lemma SeparationTermWeight(sqrt: real -> real, p: Vec3, q: Vec3, separationSqr: real) returns (w: real)
    requires IsSqrt(sqrt)
    requires 0.0 < separationSqr ==> p != q
    ensures SeparationTerm(sqrt, p, q, separationSqr) == Scale(Sub(p, q), w)
    ensures SqrMagnitude(Sub(p, q)) < separationSqr ==> 0.0 < w
    ensures separationSqr <= SqrMagnitude(Sub(p, q)) ==> w == 0.0
  {
    var difference := Sub(p, q);
    var distanceSqr := SqrMagnitude(difference);
    if distanceSqr < separationSqr {
      SubZero(p, q);
      assert 0.0 < distanceSqr;
      NormalizeUnit(sqrt, difference);
      var k := 1.0 / Magnitude(sqrt, difference);
      assert Normalize(sqrt, difference) == Scale(difference, k);
      assert SeparationTerm(sqrt, p, q, separationSqr) == Div(Scale(difference, k), distanceSqr);
      DivOfScale(difference, k, distanceSqr);
      QuotientPositive(k, distanceSqr);
      w := k / distanceSqr;
    } else {
      w := 0.0;
      assert Scale(difference, 0.0) == Zero;
    }
  }

  /** Separation sums, over the neighbours strictly closer than the separation
      distance, a positive multiple of the offset from each neighbour to the boid;
      neighbours at or beyond that distance contribute nothing. */
  lemma {:induction false} SeparationPushesAway(sqrt: real -> real, p: Vec3, qs: seq<Vec3>, separationSqr: real)
    returns (ws: seq<real>)
    requires IsSqrt(sqrt) && SeparationDefined(p, qs, separationSqr)
    ensures |ws| == |qs|
    ensures Separation(sqrt, p, qs, separationSqr) == Combination(p, qs, ws)
    ensures forall k :: 0 <= k < |qs| ==>
      (SqrMagnitude(Sub(p, qs[k])) < separationSqr ==> 0.0 < ws[k]) &&
      (separationSqr <= SqrMagnitude(Sub(p, qs[k])) ==> ws[k] == 0.0)
    decreases |qs|
  {
    if |qs| == 0 {
      ws := [];
    } else {
      var init := qs[..|qs| - 1];
      assert qs == init + [qs[|qs| - 1]];
      var ws0 := SeparationPushesAway(sqrt, p, init, separationSqr);
      var w := SeparationTermWeight(sqrt, p, qs[|qs| - 1], separationSqr);
      ws := ws0 + [w];
      assert ws[..|ws| - 1] == ws0;
      assert SeparationSum(sqrt, p, qs, separationSqr) == Combination(p, qs, ws);
    }
  }

  // ----------------------------------------------------------------- alignment

  /** The alignment accumulator after the neighbour velocities `vs`: each neighbour
      overwrites it with its own normalised velocity, so only the last one remains. */
  function OverwrittenHeading(sqrt: real -> real, vs: seq<Vec3>): Vec3
  {
    if |vs| == 0 then Zero else Normalize(sqrt, vs[|vs| - 1])
  }

  /** `CalculateAlignment`: zero without neighbours, else the accumulator divided by
      the number of neighbours. */
  function Alignment(sqrt: real -> real, vs: seq<Vec3>): Vec3
  {
    if |vs| == 0 then Zero else Div(OverwrittenHeading(sqrt, vs), |vs| as real)
  }

  /** Alignment depends on nothing but the last neighbour's velocity and the count. */
  lemma AlignmentUsesLastOnly(sqrt: real -> real, vs: seq<Vec3>, us: seq<Vec3>)
    requires |vs| == |us| && 0 < |vs| && vs[|vs| - 1] == us[|us| - 1]
    ensures Alignment(sqrt, vs) == Alignment(sqrt, us)
    ensures Alignment(sqrt, vs) == Div(Normalize(sqrt, vs[|vs| - 1]), |vs| as real)
  {
  }

  /** The sum of the normalised velocities, the accumulator the alignment rule's name
      and comment describe. */
  function HeadingSum(sqrt: real -> real, vs: seq<Vec3>): Vec3
  {
    if |vs| == 0 then Zero
    else Add(HeadingSum(sqrt, vs[..|vs| - 1]), Normalize(sqrt, vs[|vs| - 1]))
  }

  /** Alignment as evidently intended: the mean of the neighbours' headings. */
  function MeanHeading(sqrt: real -> real, vs: seq<Vec3>): Vec3
  {
    if |vs| == 0 then Zero else Div(HeadingSum(sqrt, vs), |vs| as real)
  }

  lemma {:induction false} HeadingSumRemove(sqrt: real -> real, vs: seq<Vec3>, j: nat)
    requires j < |vs|
    ensures HeadingSum(sqrt, vs) == Add(HeadingSum(sqrt, vs[..j] + vs[j + 1..]), Normalize(sqrt, vs[j]))
    decreases |vs|
  {
    var last := |vs| - 1;
    if j == last {
      assert vs[..j] + vs[j + 1..] == vs[..last];
    } else {
      var init := vs[..last];
      HeadingSumRemove(sqrt, init, j);
      var rest := vs[..j] + vs[j + 1..];
      assert rest[..|rest| - 1] == init[..j] + init[j + 1..];
      assert rest[|rest| - 1] == vs[last];
    }
  }

  /** The intended alignment does not depend on the order of the neighbour list. */
  lemma {:induction false} MeanHeadingPermutation(sqrt: real -> real, vs: seq<Vec3>, us: seq<Vec3>)
    requires multiset(vs) == multiset(us)
    ensures HeadingSum(sqrt, vs) == HeadingSum(sqrt, us)
    ensures MeanHeading(sqrt, vs) == MeanHeading(sqrt, us)
    decreases |vs|
  {
    assert |vs| == |multiset(vs)| == |multiset(us)| == |us|;
    if |vs| != 0 {
      var last := vs[|vs| - 1];
      assert last in multiset(us);
      var j :| 0 <= j < |us| && us[j] == last;
      var init := vs[..|vs| - 1];
      var rest := us[..j] + us[j + 1..];
      assert vs == init + [last];
      assert us == us[..j] + [us[j]] + us[j + 1..];
      assert multiset(vs) == multiset(init) + multiset{last};
      assert multiset(us) == multiset(us[..j]) + multiset{last} + multiset(us[j + 1..]);
      assert multiset(rest) == multiset(us[..j]) + multiset(us[j + 1..]);
      assert multiset(init) == multiset(vs) - multiset{last};
      assert multiset(rest) == multiset(us) - multiset{last};
      MeanHeadingPermutation(sqrt, init, rest);
      HeadingSumRemove(sqrt, us, j);
    }
  }

  lemma SqrtOfOne(sqrt: real -> real)
    requires IsSqrt(sqrt)
    ensures sqrt(1.0) == 1.0
  {
    SqrtOfSquare(sqrt, 1.0);
    assert Square(1.0) == 1.0;
  }

  lemma NormalizeUnitUnchanged(sqrt: real -> real, u: Vec3)
    requires IsSqrt(sqrt) && SqrMagnitude(u) == 1.0
    ensures Normalize(sqrt, u) == u
  {
    SqrtOfOne(sqrt);
    assert Magnitude(sqrt, u) == 1.0;
  }

  /** With two neighbours, alignment is the second one's heading halved. */
  lemma AlignmentOfPair(sqrt: real -> real, a: Vec3, b: Vec3)
    requires IsSqrt(sqrt) && SqrMagnitude(b) == 1.0
    ensures Alignment(sqrt, [a, b]) == Div(b, 2.0)
  {
    NormalizeUnitUnchanged(sqrt, b);
  }

  // ------------------------------------------------------------------ cohesion

  /** The position accumulator after the neighbour positions `qs`. */
  function PositionSum(qs: seq<Vec3>): Vec3
  {
    if |qs| == 0 then Zero else Add(PositionSum(qs[..|qs| - 1]), qs[|qs| - 1])
  }

  /** `CalculateCohesion`: zero without neighbours, else the offset from the boid to
      the mean position of its neighbours. */
  function Cohesion(p: Vec3, qs: seq<Vec3>): Vec3
  {
    if |qs| == 0 then Zero else Sub(Div(PositionSum(qs), |qs| as real), p)
  }

  function Translate(qs: seq<Vec3>, t: Vec3): (r: seq<Vec3>)
    ensures |r| == |qs| && forall k :: 0 <= k < |qs| ==> r[k] == Add(qs[k], t)
  {
    seq(|qs|, k requires 0 <= k < |qs| => Add(qs[k], t))
  }

  lemma ScaleStep(t: Vec3, m: real)
    ensures Add(Scale(t, m), t) == Scale(t, m + 1.0)
  {
  }

  lemma AddShuffle(a: Vec3, b: Vec3, c: Vec3, d: Vec3)
    ensures Add(Add(a, b), Add(c, d)) == Add(Add(a, c), Add(b, d))
  {
  }

  lemma {:induction false} PositionSumTranslate(qs: seq<Vec3>, t: Vec3)
    ensures PositionSum(Translate(qs, t)) == Add(PositionSum(qs), Scale(t, |qs| as real))
    decreases |qs|
  {
    if |qs| != 0 {
      var init := qs[..|qs| - 1];
      PositionSumTranslate(init, t);
      assert Translate(qs, t)[..|qs| - 1] == Translate(init, t);
      ScaleStep(t, |init| as real);
      AddShuffle(PositionSum(init), Scale(t, |init| as real), qs[|qs| - 1], t);
    }
  }

  lemma DivOfShift(v: Vec3, t: Vec3, n: real)
    requires 0.0 < n
    ensures Div(Add(v, Scale(t, n)), n) == Add(Div(v, n), t)
  {
  }

  /** Cohesion is the same wherever the boid and its neighbours sit: moving all of them
      by one offset leaves it unchanged. */
  lemma CohesionTranslationInvariant(p: Vec3, qs: seq<Vec3>, t: Vec3)
    ensures Cohesion(Add(p, t), Translate(qs, t)) == Cohesion(p, qs)
  {
    if |qs| != 0 {
      PositionSumTranslate(qs, t);
      DivOfShift(PositionSum(qs), t, |qs| as real);
    }
  }

  /** Neighbours all at one point pull the boid straight towards that point. */
  lemma CohesionTowardsCommonPoint(p: Vec3, qs: seq<Vec3>, c: Vec3)
    requires 0 < |qs| && forall k :: 0 <= k < |qs| ==> qs[k] == c
    ensures Cohesion(p, qs) == Sub(c, p)
  {
    var zeros := seq(|qs|, k => Zero);
    assert PositionSum(zeros) == Zero by { AllZeroSum(zeros); }
    assert Translate(zeros, c) == qs;
    PositionSumTranslate(zeros, c);
    DivOfShift(Zero, c, |qs| as real);
  }

  /** Helper for `CohesionTowardsCommonPoint`: positions that are all zero sum to zero. */
  lemma {:induction false} AllZeroSum(qs: seq<Vec3>)
    requires forall k :: 0 <= k < |qs| ==> qs[k] == Zero
    ensures PositionSum(qs) == Zero
    decreases |qs|
  {
    if |qs| != 0 {
      AllZeroSum(qs[..|qs| - 1]);
    }
  }

  // ----------------------------------------------------------------- avoidance

  /** The point the boid probes: its position plus its heading stretched to the
      avoidance distance. */
  function AheadPosition(sqrt: real -> real, p: Vec3, v: Vec3, distance: real): Vec3
  {
    Add(p, Scale(Normalize(sqrt, v), distance))
  }

  /** The avoidance accumulator after the obstacles `os`: the pushes of the obstacles
      that report a collision at `ahead`, in list order. */
  function AvoidanceSum(sqrt: real -> real, os: seq<Obstacle>, ahead: Vec3): Vec3
  {
    if |os| == 0 then Zero
    else
      var c := CollidesWith(sqrt, os[|os| - 1], ahead);
      Add(AvoidanceSum(sqrt, os[..|os| - 1], ahead), if c.hit then c.force else Zero)
  }

  /** `CalculateAvoidance`: the summed pushes, normalised. */
  function Avoidance(sqrt: real -> real, os: seq<Obstacle>, p: Vec3, v: Vec3, distance: real): Vec3
  {
    Normalize(sqrt, AvoidanceSum(sqrt, os, AheadPosition(sqrt, p, v, distance)))
  }

  /** The obstacles that report a collision at `ahead`, in list order: an obstacle is kept
      exactly when it is in the scene and is hit. */
  function Colliding(sqrt: real -> real, os: seq<Obstacle>, ahead: Vec3): (r: seq<Obstacle>)
    ensures forall o :: o in r ==> o in os && CollidesWith(sqrt, o, ahead).hit
    ensures forall o :: o in os && CollidesWith(sqrt, o, ahead).hit ==> o in r
  {
    if |os| == 0 then []
    else
      assert forall o :: o in os ==> o in os[..|os| - 1] || o == os[|os| - 1] by {
        assert os == os[..|os| - 1] + [os[|os| - 1]];
      }
      var init := Colliding(sqrt, os[..|os| - 1], ahead);
      if CollidesWith(sqrt, os[|os| - 1], ahead).hit then init + [os[|os| - 1]] else init
  }

  /** The sum of all pushes of `os`, collision or not. */
  function ForceSum(sqrt: real -> real, os: seq<Obstacle>, ahead: Vec3): Vec3
  {
    if |os| == 0 then Zero
    else Add(ForceSum(sqrt, os[..|os| - 1], ahead), CollidesWith(sqrt, os[|os| - 1], ahead).force)
  }

  /** Obstacles that do not collide add nothing: the accumulator is the plain sum of
      the pushes of the colliding ones. */
  lemma {:induction false} AvoidanceSumOfColliding(sqrt: real -> real, os: seq<Obstacle>, ahead: Vec3)
    ensures AvoidanceSum(sqrt, os, ahead) == ForceSum(sqrt, Colliding(sqrt, os, ahead), ahead)
    decreases |os|
  {
    if |os| != 0 {
      var init := os[..|os| - 1];
      AvoidanceSumOfColliding(sqrt, init, ahead);
      var r := Colliding(sqrt, init, ahead);
      if CollidesWith(sqrt, os[|os| - 1], ahead).hit {
        assert (r + [os[|os| - 1]])[..|r|] == r;
      }
    }
  }

  /** When nothing collides at the probe point the avoidance is zero. */
  lemma NothingCollidesNoAvoidance(sqrt: real -> real, os: seq<Obstacle>, p: Vec3, v: Vec3, distance: real)
    requires forall o :: o in os ==> !CollidesWith(sqrt, o, AheadPosition(sqrt, p, v, distance)).hit
    ensures Avoidance(sqrt, os, p, v, distance) == Zero
  {
    var ahead := AheadPosition(sqrt, p, v, distance);
    AvoidanceSumOfColliding(sqrt, os, ahead);
    NoneCollidingEmpty(sqrt, os, ahead);
  }

  lemma {:induction false} NoneCollidingEmpty(sqrt: real -> real, os: seq<Obstacle>, ahead: Vec3)
    requires forall o :: o in os ==> !CollidesWith(sqrt, o, ahead).hit
    ensures Colliding(sqrt, os, ahead) == []
    decreases |os|
  {
    if |os| != 0 {
      assert forall o :: o in os[..|os| - 1] ==> o in os;
      NoneCollidingEmpty(sqrt, os[..|os| - 1], ahead);
    }
  }

  /** Avoidance is either nothing or a unit vector. */
  lemma AvoidanceUnitOrZero(sqrt: real -> real, os: seq<Obstacle>, p: Vec3, v: Vec3, distance: real)
    requires IsSqrt(sqrt)
    ensures var a := Avoidance(sqrt, os, p, v, distance); a == Zero || SqrMagnitude(a) == 1.0
  {
    var s := AvoidanceSum(sqrt, os, AheadPosition(sqrt, p, v, distance));
    if s != Zero {
      NormalizeUnit(sqrt, s);
    }
  }

  // -------------------------------------------------- one neighbour at a time

  /** The separation accumulator after one more neighbour. */
  lemma SeparationSumStep(sqrt: real -> real, p: Vec3, qs: seq<Vec3>, t: nat, separationSqr: real)
    requires t < |qs| && SeparationDefined(p, qs, separationSqr)
    ensures SeparationDefined(p, qs[..t], separationSqr) && SeparationDefined(p, qs[..t + 1], separationSqr)
    ensures SeparationSum(sqrt, p, qs[..t + 1], separationSqr) ==
      Add(SeparationSum(sqrt, p, qs[..t], separationSqr), SeparationTerm(sqrt, p, qs[t], separationSqr))
  {
    assert qs[..t + 1][..t] == qs[..t];
    assert forall q :: q in qs[..t + 1] ==> q in qs;
  }

  /** The heading accumulator after one more neighbour. */
  lemma OverwrittenHeadingStep(sqrt: real -> real, vs: seq<Vec3>, t: nat)
    requires t < |vs|
    ensures OverwrittenHeading(sqrt, vs[..t + 1]) == Normalize(sqrt, vs[t])
  {
  }

  /** The position accumulator after one more neighbour. */
  lemma PositionSumStep(qs: seq<Vec3>, t: nat)
    requires t < |qs|
    ensures PositionSum(qs[..t + 1]) == Add(PositionSum(qs[..t]), qs[t])
  {
    assert qs[..t + 1][..t] == qs[..t];
  }

  /** The avoidance accumulator after one more obstacle. */
  lemma AvoidanceSumStep(sqrt: real -> real, os: seq<Obstacle>, t: nat, ahead: Vec3)
    requires t < |os|
    ensures AvoidanceSum(sqrt, os[..t + 1], ahead) ==
      Add(AvoidanceSum(sqrt, os[..t], ahead),
          if CollidesWith(sqrt, os[t], ahead).hit then CollidesWith(sqrt, os[t], ahead).force else Zero)
  {
    assert os[..t + 1][..t] == os[..t];
  }
}
