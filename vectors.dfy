/** Three-component vectors over exact reals, standing in for the engine's Vector3.
    Square roots are not expressible over Dafny's reals, so the square root of the
    host math library is passed in as a function `sqrt`; the lemmas that need it to
    behave like a square root say so with `IsSqrt(sqrt)`. */
module Vectors {

  datatype Vec3 = Vec3(x: real, y: real, z: real)

  const Zero := Vec3(0.0, 0.0, 0.0)
  const Up := Vec3(0.0, 1.0, 0.0)
  const Down := Vec3(0.0, -1.0, 0.0)

  function Add(a: Vec3, b: Vec3): Vec3 { Vec3(a.x + b.x, a.y + b.y, a.z + b.z) }

  function Sub(a: Vec3, b: Vec3): Vec3 { Vec3(a.x - b.x, a.y - b.y, a.z - b.z) }

  function Scale(v: Vec3, k: real): Vec3 { Vec3(v.x * k, v.y * k, v.z * k) }

  /** Component-wise division, as `Vector3 / float` does it. */
  function Div(v: Vec3, d: real): Vec3
    requires d != 0.0
  {
    Vec3(v.x / d, v.y / d, v.z / d)
  }

  function Dot(a: Vec3, b: Vec3): real { a.x * b.x + a.y * b.y + a.z * b.z }

  function Cross(a: Vec3, b: Vec3): Vec3
  {
    Vec3(a.y * b.z - a.z * b.y, a.z * b.x - a.x * b.z, a.x * b.y - a.y * b.x)
  }

  /** Products and squares are kept behind functions of their own: the solver reasons
      about `a * a` poorly once facts such as `0 < a * a` are in scope, and the lemmas
      below hand it the few facts about them that the model uses. */
  function Mul(a: real, b: real): real { a * b }

  function Square(a: real): real { Mul(a, a) }

  /** `sqrMagnitude`: never negative, and zero exactly for the zero vector. */
  function SqrMagnitude(v: Vec3): (r: real)
    ensures 0.0 <= r
    ensures r == 0.0 <==> v == Zero
  {
    SumOfSquares(v.x, v.y, v.z);
    Square(v.x) + Square(v.y) + Square(v.z)
  }

  lemma MulPositive(a: real, b: real)
    requires 0.0 < a && 0.0 < b
    ensures 0.0 < Mul(a, b)
  {
  }

  lemma MulNegative(a: real, b: real)
    requires a < 0.0 && b < 0.0
    ensures 0.0 < Mul(a, b)
  {
    MulPositive(-a, -b);
    assert Mul(-a, -b) == Mul(a, b);
  }

  lemma SquarePositive(a: real)
    requires a != 0.0
    ensures 0.0 < Square(a)
  {
    if a < 0.0 {
      MulNegative(a, a);
    } else {
      MulPositive(a, a);
    }
  }

  /** A square is never negative, and zero only for zero. */
  lemma SquareNonNegative(a: real)
    ensures 0.0 <= Square(a)
    ensures Square(a) == 0.0 <==> a == 0.0
  {
    if a != 0.0 {
      SquarePositive(a);
    }
  }

  /** A sum of three squares is never negative, and zero only when all three are. */
  lemma SumOfSquares(x: real, y: real, z: real)
    ensures 0.0 <= Square(x) + Square(y) + Square(z)
    ensures Square(x) + Square(y) + Square(z) == 0.0 <==> x == 0.0 && y == 0.0 && z == 0.0
  {
    SquareNonNegative(x);
    SquareNonNegative(y);
    SquareNonNegative(z);
  }

  /** Two non-negative reals with equal squares are equal. */
  lemma SquareInjective(m: real, k: real)
    requires 0.0 <= m && 0.0 <= k && Square(m) == Square(k)
    ensures m == k
  {
    if m != k {
      MulPositive(if m < k then k - m else m - k, k + m);
    }
  }

  /** What the host library's square root is taken to satisfy. */
  ghost predicate IsSqrt(sqrt: real -> real)
  {
    forall a :: 0.0 <= a ==> 0.0 <= sqrt(a) && Square(sqrt(a)) == a
  }

  /** `magnitude`. */
  function Magnitude(sqrt: real -> real, v: Vec3): real
  {
    sqrt(SqrMagnitude(v))
  }

  /** `normalized` / `Normalize()`: the vector divided by its length (written as a
      multiplication by the reciprocal, the same value over the reals); a vector whose
      length is not positive (the zero vector) becomes the zero vector. */
  function Normalize(sqrt: real -> real, v: Vec3): (r: Vec3)
    ensures v == Zero ==> r == Zero
  {
    var m := Magnitude(sqrt, v);
    if 0.0 < m then
      ScaleZero(1.0 / m);
      Scale(v, 1.0 / m)
    else
      Zero
  }

  /** Whatever the square root does, normalising only stretches the vector by a
      non-negative factor: it never turns it round. */
  lemma NormalizeDirection(sqrt: real -> real, v: Vec3) returns (k: real)
    ensures 0.0 <= k && Normalize(sqrt, v) == Scale(v, k)
  {
    var m := Magnitude(sqrt, v);
    if 0.0 < m {
      ReciprocalPositive(m);
      k := 1.0 / m;
    } else {
      k := 0.0;
      assert Scale(v, 0.0) == Zero;
    }
  }

  lemma ScaleZero(k: real)
    ensures Scale(Zero, k) == Zero
  {
  }

  lemma ReciprocalPositive(m: real)
    requires 0.0 < m
    ensures 0.0 < 1.0 / m
  {
  }

  /** The square root of a square is the non-negative root. */
  lemma SqrtOfSquare(sqrt: real -> real, k: real)
    requires IsSqrt(sqrt) && 0.0 <= k
    ensures sqrt(Square(k)) == k
  {
    SquareNonNegative(k);
    SquareInjective(sqrt(Square(k)), k);
  }

  /** Magnitude is positive exactly for non-zero vectors, and squares to `sqrMagnitude`. */
  lemma MagnitudePositive(sqrt: real -> real, v: Vec3)
    requires IsSqrt(sqrt)
    ensures 0.0 <= Magnitude(sqrt, v)
    ensures 0.0 < Magnitude(sqrt, v) <==> v != Zero
    ensures Square(Magnitude(sqrt, v)) == SqrMagnitude(v)
  {
    var s := SqrMagnitude(v);
    assert 0.0 <= sqrt(s) && Square(sqrt(s)) == s;
    SquareNonNegative(sqrt(s));
  }

  lemma SquareOfProduct(a: real, b: real)
    ensures Square(Mul(a, b)) == Mul(Square(a), Square(b))
  {
  }

  lemma SqrMagnitudeScale(v: Vec3, k: real)
    ensures SqrMagnitude(Scale(v, k)) == Mul(Square(k), SqrMagnitude(v))
  {
    SquareOfProduct(v.x, k);
    SquareOfProduct(v.y, k);
    SquareOfProduct(v.z, k);
  }

  /** A non-zero vector normalises to a unit vector, a positive multiple of itself. */
  lemma NormalizeUnit(sqrt: real -> real, v: Vec3)
    requires IsSqrt(sqrt) && v != Zero
    ensures SqrMagnitude(Normalize(sqrt, v)) == 1.0
    ensures Normalize(sqrt, v) == Scale(v, 1.0 / Magnitude(sqrt, v))
    ensures 0.0 < 1.0 / Magnitude(sqrt, v)
  {
    MagnitudePositive(sqrt, v);
    var m := Magnitude(sqrt, v);
    var k := 1.0 / m;
    SqrMagnitudeScale(v, k);
    SquareOfProduct(k, m);
    assert Mul(k, m) == 1.0;
  }

  /** The length of a unit vector stretched by a non-negative factor is that factor. */
  lemma MagnitudeOfScaledUnit(sqrt: real -> real, u: Vec3, k: real)
    requires IsSqrt(sqrt) && SqrMagnitude(u) == 1.0 && 0.0 <= k
    ensures Magnitude(sqrt, Scale(u, k)) == k
  {
    SqrMagnitudeScale(u, k);
    SqrtOfSquare(sqrt, k);
  }

  /** The cross product is orthogonal to both of its arguments. */
  lemma CrossOrthogonal(a: Vec3, b: Vec3)
    ensures Dot(Cross(a, b), a) == 0.0
    ensures Dot(Cross(a, b), b) == 0.0
  {
  }
}
