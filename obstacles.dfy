/** Obstacles a boid steers around: an upright cylinder and a half-space bounded by a
    plane. The abstract obstacle base class becomes a closed datatype whose
    `CollidesWith` dispatches to the two collision tests. */
module Obstacles {
  import opened Vectors

  /** What `CollidesWith` reports: the returned flag and the `out` avoidance force. */
  datatype Collision = Collision(hit: bool, force: Vec3)

  datatype Obstacle =
    | Cylinder(centre: Vec3, radius: real, height: real)
    | Plane(origin: Vec3, normal: Vec3, width: real, length: real)

  function Abs(a: real): real { if a < 0.0 then -a else a }

  /** The cylinder test. The point must lie within the radius of the axis in the XZ plane
      (inclusive) and strictly within half the height of the centre. Points in the top or
      bottom five percent of the half-height are pushed straight up or down; any other
      hit is pushed horizontally away from the axis by the XZ offset itself. */
  function CylinderCollision(centre: Vec3, radius: real, height: real, p: Vec3): (r: Collision)
    ensures r.hit <==>
      Square(p.x - centre.x) + Square(p.z - centre.z) <= Square(radius) &&
      Abs(p.y - centre.y) < height / 2.0
    ensures !r.hit ==> r.force == Zero
    ensures r.hit && p.y - centre.y > (height / 2.0) * 0.95 ==> r.force == Up
    ensures r.hit && p.y - centre.y < (-height / 2.0) * 0.95 ==> r.force == Down
    ensures r.hit && (-height / 2.0) * 0.95 <= p.y - centre.y <= (height / 2.0) * 0.95 ==>
      r.force == Vec3(p.x - centre.x, 0.0, p.z - centre.z)
  {
    var dx := p.x - centre.x;
    var dz := p.z - centre.z;
    var distanceXZSquared := Square(dx) + Square(dz);
    if distanceXZSquared <= Square(radius) then
      var dy := p.y - centre.y;
      if Abs(dy) < height / 2.0 then
        if dy > (height / 2.0) * 0.95 then
          Collision(true, Up)
        else if dy < (-height / 2.0) * 0.95 then
          Collision(true, Down)
        else
          Collision(true, Vec3(dx, 0.0, dz))
      else
        Collision(false, Zero)
    else
      Collision(false, Zero)
  }

  /** The plane test: the signed distance of the point from the plane through `origin`
      along the normalised normal; the point collides when it is on the plane or behind
      it. The force is the normal as given, not normalised, whatever the outcome. */
  function PlaneCollision(sqrt: real -> real, origin: Vec3, normal: Vec3, p: Vec3): (r: Collision)
    ensures r.force == normal
    ensures r.hit <==> Dot(Sub(p, origin), Normalize(sqrt, normal)) <= 0.0
  {
    var n := Normalize(sqrt, normal);
    var distanceToPlane := Dot(Sub(p, origin), n);
    Collision(distanceToPlane <= 0.0, normal)
  }

  /** `Obstacle.CollidesWith`. */
  function CollidesWith(sqrt: real -> real, o: Obstacle, p: Vec3): Collision
  {
    match o
    case Cylinder(c, radius, height) => CylinderCollision(c, radius, height, p)
    case Plane(origin, normal, _, _) => PlaneCollision(sqrt, origin, normal, p)
  }

  /** The height test is strict, so a cylinder without positive height is never hit. */
  lemma FlatCylinderNeverHit(sqrt: real -> real, c: Vec3, radius: real, height: real, p: Vec3)
    requires height <= 0.0
    ensures !CollidesWith(sqrt, Cylinder(c, radius, height), p).hit
    ensures CollidesWith(sqrt, Cylinder(c, radius, height), p).force == Zero
  {
  }

  /** Every push of the cylinder points away from its centre or along the surface: it
      never points into the cylinder. A point on the axis (outside the caps) gets the
      zero push. */
  lemma CylinderPushesOutward(c: Vec3, radius: real, height: real, p: Vec3)
    ensures Dot(CylinderCollision(c, radius, height, p).force, Sub(p, c)) >= 0.0
    ensures CylinderCollision(c, radius, height, p).force.y != 0.0 ==>
      CylinderCollision(c, radius, height, p).force == Up ||
      CylinderCollision(c, radius, height, p).force == Down
    ensures p.x == c.x && p.z == c.z && 0.0 < height && Abs(p.y - c.y) <= (height / 2.0) * 0.95 ==>
      CylinderCollision(c, radius, height, p) == Collision(true, Zero)
  {
    var r := CylinderCollision(c, radius, height, p);
    var dx := p.x - c.x;
    var dz := p.z - c.z;
    if r.hit && (-height / 2.0) * 0.95 <= p.y - c.y <= (height / 2.0) * 0.95 {
      SquareNonNegative(dx);
      SquareNonNegative(dz);
      assert Dot(r.force, Sub(p, c)) == Square(dx) + Square(dz);
    }
    if p.x == c.x && p.z == c.z && 0.0 < height && Abs(p.y - c.y) <= (height / 2.0) * 0.95 {
      SquareNonNegative(0.0);
      SquareNonNegative(radius);
      assert Square(dx) + Square(dz) == 0.0;
    }
  }

  lemma MulSign(k: real, a: real)
    requires 0.0 < k
    ensures Mul(k, a) <= 0.0 <==> a <= 0.0
  {
    if 0.0 < a {
      MulPositive(k, a);
    } else if a < 0.0 {
      MulPositive(k, -a);
      assert Mul(k, -a) == -Mul(k, a);
    }
  }

  lemma DotScale(d: Vec3, n: Vec3, k: real)
    ensures Dot(d, Scale(n, k)) == Mul(k, Dot(d, n))
  {
  }

  /** Dividing by the positive length of a non-zero normal keeps the sign of the
      distance, so the plane test is the sign of the dot product with the raw normal. */
  lemma PlaneSideTest(sqrt: real -> real, origin: Vec3, normal: Vec3, p: Vec3)
    requires IsSqrt(sqrt) && normal != Zero
    ensures PlaneCollision(sqrt, origin, normal, p).hit <==> Dot(Sub(p, origin), normal) <= 0.0
  {
    NormalizeUnit(sqrt, normal);
    var k := 1.0 / Magnitude(sqrt, normal);
    var d := Sub(p, origin);
    DotScale(d, normal, k);
    MulSign(k, Dot(d, normal));
  }

  /** A zero normal normalises to zero, so every point is on the plane and collides. */
  lemma ZeroNormalAlwaysHits(sqrt: real -> real, origin: Vec3, p: Vec3)
    ensures PlaneCollision(sqrt, origin, Zero, p) == Collision(true, Zero)
  {
    assert Normalize(sqrt, Zero) == Zero;
    DotZero(Sub(p, origin));
  }

  lemma DotZero(v: Vec3)
    ensures Dot(v, Zero) == 0.0
  {
  }

  /** The plane's extent is only drawn: it never changes the collision outcome. */
  lemma PlaneIgnoresSize(sqrt: real -> real, origin: Vec3, normal: Vec3, w1: real, l1: real, w2: real, l2: real, p: Vec3)
    ensures CollidesWith(sqrt, Plane(origin, normal, w1, l1), p) == CollidesWith(sqrt, Plane(origin, normal, w2, l2), p)
  {
  }

  /** The display frame `OnValidate` derives from a plane: two axes and four corners. */
  datatype Frame = Frame(right: Vec3, forward: Vec3,
                         topLeft: Vec3, topRight: Vec3, bottomLeft: Vec3, bottomRight: Vec3)

  /** The right axis: the normal's components rotated one place. */
  function RightAxis(normal: Vec3): Vec3 { Vec3(normal.y, normal.z, normal.x) }

  /** The right axis is the normal with its components rotated, the forward axis is the
      cross product of the normal with it, and the corners lie half a width along the
      right axis and half a length along the forward axis from the origin. */
  function PlaneFrame(origin: Vec3, normal: Vec3, width: real, length: real): Frame
  {
    var halfWidth := width / 2.0;
    var halfHeight := length / 2.0;
    var right := RightAxis(normal);
    var forward := Cross(normal, right);
    Frame(right, forward,
          Add(Sub(origin, Scale(right, halfWidth)), Scale(forward, halfHeight)),
          Add(Add(origin, Scale(right, halfWidth)), Scale(forward, halfHeight)),
          Sub(Sub(origin, Scale(right, halfWidth)), Scale(forward, halfHeight)),
          Sub(Add(origin, Scale(right, halfWidth)), Scale(forward, halfHeight)))
  }

  /** The forward axis is orthogonal to both the normal and the right axis. */
  lemma PlaneAxesOrthogonal(origin: Vec3, normal: Vec3, width: real, length: real)
    ensures var f := PlaneFrame(origin, normal, width, length);
      Dot(f.forward, normal) == 0.0 && Dot(f.forward, f.right) == 0.0
  {
    CrossOrthogonal(normal, Vec3(normal.y, normal.z, normal.x));
  }

  /** Opposite corners are symmetric about the origin. */
  lemma PlaneCornersSymmetric(origin: Vec3, normal: Vec3, width: real, length: real)
    ensures var f := PlaneFrame(origin, normal, width, length);
      Add(f.topLeft, f.bottomRight) == Scale(origin, 2.0) &&
      Add(f.topRight, f.bottomLeft) == Scale(origin, 2.0)
  {
    var f := PlaneFrame(origin, normal, width, length);
    CornerSum(origin, Scale(f.right, width / 2.0), Scale(f.forward, length / 2.0));
  }

  lemma CornerSum(o: Vec3, r: Vec3, f: Vec3)
    ensures Add(Add(Sub(o, r), f), Sub(Add(o, r), f)) == Scale(o, 2.0)
    ensures Add(Add(Add(o, r), f), Sub(Sub(o, r), f)) == Scale(o, 2.0)
  {
  }

  /** The top edge spans the full width along the right axis and the left edge the full
      length along the forward axis. */
  lemma PlaneCornerSpans(origin: Vec3, normal: Vec3, width: real, length: real)
    ensures var f := PlaneFrame(origin, normal, width, length);
      Sub(f.topRight, f.topLeft) == Scale(f.right, width) &&
      Sub(f.topLeft, f.bottomLeft) == Scale(f.forward, length)
  {
    var f := PlaneFrame(origin, normal, width, length);
    HalfSpan(f.right, width);
    HalfSpan(f.forward, length);
    CornerDifference(origin, Scale(f.right, width / 2.0), Scale(f.forward, length / 2.0));
  }

  lemma HalfSpan(a: Vec3, s: real)
    ensures Add(Scale(a, s / 2.0), Scale(a, s / 2.0)) == Scale(a, s)
  {
  }

  lemma CornerDifference(o: Vec3, r: Vec3, f: Vec3)
    ensures Sub(Add(Add(o, r), f), Add(Sub(o, r), f)) == Add(r, r)
    ensures Sub(Add(Sub(o, r), f), Sub(Sub(o, r), f)) == Add(f, f)
  {
  }

  /** A plane obstacle as a scene object: the inspector fields and the display geometry
      that `OnValidate` recomputes from them. */
  class PlaneObstacle {
    const origin: Vec3
    var normal: Vec3
    var width: real
    var length: real
    var right: Vec3
    var forward: Vec3
    var topLeft: Vec3
    var topRight: Vec3
    var bottomLeft: Vec3
    var bottomRight: Vec3

    /** The obstacle as the managers see it. */
    function Shape(): Obstacle
      reads this
    {
      Plane(origin, normal, width, length)
    }

    function Geometry(): Frame
      reads this
    {
      Frame(right, forward, topLeft, topRight, bottomLeft, bottomRight)
    }

    /** A new plane with the default normal (0, 1, 0) and size (1, 1); the display
        geometry is not computed until `OnValidate` runs. */
    constructor(origin: Vec3)
      ensures this.origin == origin && normal == Up && width == 1.0 && length == 1.0
      ensures Geometry() == Frame(Zero, Zero, Zero, Zero, Zero, Zero)
    {
      this.origin := origin;
      normal := Up;
      width := 1.0;
      length := 1.0;
      right, forward := Zero, Zero;
      topLeft, topRight, bottomLeft, bottomRight := Zero, Zero, Zero, Zero;
    }

    /** Recomputes the axes and corners step by step, as the editor callback does. */
    method OnValidate()
      modifies this
      ensures Shape() == old(Shape())
      ensures Geometry() == PlaneFrame(origin, normal, width, length)
    {
      ghost var f := PlaneFrame(origin, normal, width, length);
      var halfWidth := width / 2.0;
      var halfHeight := length / 2.0;

      right := Vec3(normal.y, normal.z, normal.x);
      forward := Cross(normal, right);
      assert right == f.right && forward == f.forward;

      topLeft := origin;
      topLeft := Sub(topLeft, Scale(right, halfWidth));
      topLeft := Add(topLeft, Scale(forward, halfHeight));
      assert topLeft == f.topLeft;

      topRight := origin;
      topRight := Add(topRight, Scale(right, halfWidth));
      topRight := Add(topRight, Scale(forward, halfHeight));
      assert topRight == f.topRight;

      bottomLeft := origin;
      bottomLeft := Sub(bottomLeft, Scale(right, halfWidth));
      bottomLeft := Sub(bottomLeft, Scale(forward, halfHeight));
      assert bottomLeft == f.bottomLeft;

      bottomRight := origin;
      bottomRight := Add(bottomRight, Scale(right, halfWidth));
      bottomRight := Sub(bottomRight, Scale(forward, halfHeight));
    }
  }
}
