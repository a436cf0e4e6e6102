/** Concrete configurations that show what the general lemmas mean, and where the
    program departs from what its names and comments promise. */
module Scenarios {
  import opened Vectors
  import opened Boundary
  import opened Obstacles
  import opened Steering
  import opened Pairs

  /** In the ten-unit cube, leaving through one face re-enters through the opposite one. */
  lemma WrapExample()
    ensures Wrap(Bounds(Zero, Vec3(10.0, 10.0, 10.0)), Vec3(10.5, 5.0, 5.0)) == Vec3(0.5, 5.0, 5.0)
    ensures Wrap(Bounds(Zero, Vec3(10.0, 10.0, 10.0)), Vec3(-1.0, 11.0, 3.0)) == Vec3(9.0, 1.0, 3.0)
  {
  }

  /** The right axis is not in general in the plane: for the normal (1, 1, 0) it is
      (1, 0, 1), whose dot product with the normal is 1, not 0. */
  lemma PlaneRightAxisSkewed(origin: Vec3, width: real, length: real)
    ensures PlaneFrame(origin, Vec3(1.0, 1.0, 0.0), width, length).right == Vec3(1.0, 0.0, 1.0)
    ensures Dot(Vec3(1.0, 0.0, 1.0), Vec3(1.0, 1.0, 0.0)) == 1.0
  {
    var f := PlaneFrame(origin, Vec3(1.0, 1.0, 0.0), width, length);
    assert f.right == RightAxis(Vec3(1.0, 1.0, 0.0));
  }

  /** For a normal along (1, 1, 1) the right axis is the normal itself, which leaves
      the forward axis zero and the drawn rectangle a line. */
  lemma PlaneForwardDegenerate(origin: Vec3, width: real, length: real)
    ensures PlaneFrame(origin, Vec3(1.0, 1.0, 1.0), width, length).forward == Zero
  {
  }

  lemma UnitAxes()
    ensures SqrMagnitude(Vec3(1.0, 0.0, 0.0)) == 1.0 && SqrMagnitude(Vec3(0.0, 1.0, 0.0)) == 1.0
  {
    assert Square(1.0) == 1.0 && Square(0.0) == 0.0;
  }

  lemma Halve(v: Vec3)
    ensures Div(v, 2.0) == Scale(v, 0.5)
  {
  }

  /** Two neighbours heading along different axes: swapping them in the list changes
      the alignment as written (the mean heading does not change, by
      `MeanHeadingPermutation`). */
  lemma AlignmentDependsOnOrder(sqrt: real -> real)
    requires IsSqrt(sqrt)
    ensures Alignment(sqrt, [Vec3(1.0, 0.0, 0.0), Vec3(0.0, 1.0, 0.0)]) == Vec3(0.0, 0.5, 0.0)
    ensures Alignment(sqrt, [Vec3(0.0, 1.0, 0.0), Vec3(1.0, 0.0, 0.0)]) == Vec3(0.5, 0.0, 0.0)
  {
    var a, b := Vec3(1.0, 0.0, 0.0), Vec3(0.0, 1.0, 0.0);
    UnitAxes();
    Halve(a);
    Halve(b);
    AlignmentOfPair(sqrt, a, b);
    AlignmentOfPair(sqrt, b, a);
  }

  /** Three boids make three pairs, but the running total allocates one slot; one boid
      gets a negative size. The corrected size is three. */
  lemma ThreeBoidsBuffer()
    ensures GetRunningTotal(3) == 1 && PairCount(3) == 3 && PairBufferSize(3) == 3
    ensures GetRunningTotal(1) == -1
  {
    assert RowStart(3, 3) == RowStart(3, 2) + 0 == RowStart(3, 1) + 1 == 3;
  }
}
