/** Homogeneous 4-slot tuples of `src/tuple.rs`: a point has w = 1, a vector w = 0, and a
    colour reuses the vector layout (r, g, b, 0). The f64 slots are modelled as reals, so
    the arithmetic is exact, and `sqrt` is passed in as a function whose law, IsSqrt, is
    assumed only by the lemmas that need it. */
module Tuples {

  datatype Tuple = Tuple(x: real, y: real, z: real, w: real)

  /** Per-slot tolerance of `PartialEq for Tuple`. */
  const Epsilon: real := 0.00001

  predicate IsPoint(t: Tuple) { t.w == 1.0 }

  predicate IsVector(t: Tuple) { t.w == 0.0 }

  /** The law of the floating-point square root, read over the reals. */
  ghost predicate IsSqrt(sqrt: real -> real) {
    forall x: real :: 0.0 <= x ==> 0.0 <= sqrt(x) && sqrt(x) * sqrt(x) == x
  }

  function Abs(x: real): (r: real)
    ensures 0.0 <= r && (r == x || r == -x)
  {
    if x < 0.0 then -x else x
  }

  // ---------------------------------------------------------------- constructors

  function Point(x: real, y: real, z: real): Tuple {
    Tuple(x, y, z, 1.0)
  }

  function Vector(x: real, y: real, z: real): Tuple {
    Tuple(x, y, z, 0.0)
  }

  /** A colour (red, green, blue) stored in the x, y, z slots with w = 0. */
  function Color(red: real, green: real, blue: real): Tuple {
    Tuple(red, green, blue, 0.0)
  }

  /** The colour (0, 0, 0): a new canvas's pixels, and the lighting terms that are cut off. */
  const Black: Tuple := Tuple(0.0, 0.0, 0.0, 0.0)

  // ---------------------------------------------------------------- operators

  function Add(a: Tuple, b: Tuple): Tuple {
    Tuple(a.x + b.x, a.y + b.y, a.z + b.z, a.w + b.w)
  }

  function Sub(a: Tuple, b: Tuple): Tuple {
    Tuple(a.x - b.x, a.y - b.y, a.z - b.z, a.w - b.w)
  }

  function Neg(a: Tuple): Tuple {
    Tuple(-a.x, -a.y, -a.z, -a.w)
  }

  /** `Mul<f64> for Tuple`. */
  function Scale(a: Tuple, s: real): Tuple {
    Tuple(a.x * s, a.y * s, a.z * s, a.w * s)
  }

  /** `Div<f64> for Tuple`; a zero divisor (an IEEE infinity) is outside the model. */
  function Div(a: Tuple, s: real): Tuple
    requires s != 0.0
  {
    Tuple(a.x / s, a.y / s, a.z / s, a.w / s)
  }

  /** Sum of the products of all four slots. */
  function Dot(a: Tuple, b: Tuple): real {
    a.x * b.x + a.y * b.y + a.z * b.z + a.w * b.w
  }

  /** The cross product of the xyz parts, returned as a vector perpendicular to both arguments. */
  function Cross(a: Tuple, b: Tuple): (r: Tuple)
    ensures IsVector(r)
    ensures IsVector(a) ==> Dot(r, a) == 0.0
    ensures IsVector(b) ==> Dot(r, b) == 0.0
  {
    Vector(a.y * b.z - a.z * b.y, a.z * b.x - a.x * b.z, a.x * b.y - a.y * b.x)
  }

  /** Componentwise (Schur) product, used to mix colours. */
  function Hadamard(a: Tuple, b: Tuple): Tuple {
    Tuple(a.x * b.x, a.y * b.y, a.z * b.z, a.w * b.w)
  }

  /** Length of the xyz part; w takes no part. */
  function Magnitude(t: Tuple, sqrt: real -> real): real {
    sqrt(SquaredLength(t))
  }

  /** x² + y² + z², the radicand of the magnitude. */
  function SquaredLength(t: Tuple): real {
    t.x * t.x + t.y * t.y + t.z * t.z
  }

  /** Divides all four slots by the magnitude; a zero magnitude (NaN) is outside the model. */
  function Normalize(t: Tuple, sqrt: real -> real): (n: Tuple)
    requires Magnitude(t, sqrt) != 0.0
    ensures IsVector(t) ==> IsVector(n)
  {
    var m := Magnitude(t, sqrt);
    Tuple(t.x / m, t.y / m, t.z / m, t.w / m)
  }

  /** `PartialEq for Tuple`: every slot within Epsilon. */
  predicate ApproxEq(a: Tuple, b: Tuple) {
    Abs(a.x - b.x) < Epsilon && Abs(a.y - b.y) < Epsilon
    && Abs(a.z - b.z) < Epsilon && Abs(a.w - b.w) < Epsilon
  }

  // ---------------------------------------------------------------- square roots

  /** Under IsSqrt the root of x is the one non-negative r with r * r == x. */
  lemma SqrtOf(sqrt: real -> real, x: real, r: real)
    requires IsSqrt(sqrt) && 0.0 <= r && r * r == x
    ensures sqrt(x) == r
  {
    var s := sqrt(x);
    assert 0.0 <= s && s * s == x;
    assert (s - r) * (s + r) == 0.0;
    if s + r != 0.0 {
      assert s - r == ((s - r) * (s + r)) / (s + r);
    }
  }

  /** Equal factors give equal products (the solver does not substitute inside products). */
  lemma MulBoth(u: real, v: real, w: real)
    requires u == v
    ensures u * w == v * w
  {}

  lemma SquareEq(u: real, v: real)
    requires u == v
    ensures u * u == v * v
  {}

  /** Dividing each of x, y, z by the length m of (x, y, z) gives squares summing to 1. */
  lemma UnitAfterDivision(vx: real, vy: real, vz: real, m: real)
    requires 0.0 < m && m * m == vx * vx + vy * vy + vz * vz
    ensures (vx / m) * (vx / m) + (vy / m) * (vy / m) + (vz / m) * (vz / m) == 1.0
  {
    var s := vx * vx + vy * vy + vz * vz;
    var k := 1.0 / m;
    assert m * k == 1.0;
    assert vx / m == vx * k && vy / m == vy * k && vz / m == vz * k;
    assert (vx * k) * (vx * k) + (vy * k) * (vy * k) + (vz * k) * (vz * k) == s * (k * k);
    MulBoth(s, m * m, k * k);
    assert (m * m) * (k * k) == (m * k) * (m * k);
    SquareEq(m * k, 1.0);
  }

  // ---------------------------------------------------------------- w bookkeeping

  /** A point has w = 1 and keeps its three coordinates. */
  lemma PointSlots(x: real, y: real, z: real)
    ensures IsPoint(Point(x, y, z)) && !IsVector(Point(x, y, z))
    ensures Point(x, y, z).x == x && Point(x, y, z).y == y && Point(x, y, z).z == z
  {}

  /** A vector has w = 0 and keeps its three coordinates. */
  lemma VectorSlots(x: real, y: real, z: real)
    ensures IsVector(Vector(x, y, z)) && !IsPoint(Vector(x, y, z))
    ensures Vector(x, y, z).x == x && Vector(x, y, z).y == y && Vector(x, y, z).z == z
  {}

  /** The four slots a point or vector literal stands for. */
  lemma LiteralSlots(x: real, y: real, z: real)
    ensures Point(x, y, z) == Tuple(x, y, z, 1.0) && Vector(x, y, z) == Tuple(x, y, z, 0.0)
  {}

  /** A colour is laid out exactly like the vector of its three channels. */
  lemma ColorIsVector(red: real, green: real, blue: real)
    ensures Color(red, green, blue) == Vector(red, green, blue)
  {}

  lemma PointMinusPoint(p: Tuple, q: Tuple)
    requires IsPoint(p) && IsPoint(q)
    ensures Sub(p, q) == Vector(p.x - q.x, p.y - q.y, p.z - q.z)
  {}

  lemma PointMinusVector(p: Tuple, v: Tuple)
    requires IsPoint(p) && IsVector(v)
    ensures Sub(p, v) == Point(p.x - v.x, p.y - v.y, p.z - v.z)
  {}

  lemma VectorMinusVector(u: Tuple, v: Tuple)
    requires IsVector(u) && IsVector(v)
    ensures Sub(u, v) == Vector(u.x - v.x, u.y - v.y, u.z - v.z)
  {}

  lemma PointPlusVector(p: Tuple, v: Tuple)
    requires IsPoint(p) && IsVector(v)
    ensures Add(p, v) == Point(p.x + v.x, p.y + v.y, p.z + v.z)
  {}

  lemma VectorPlusVector(u: Tuple, v: Tuple)
    requires IsVector(u) && IsVector(v)
    ensures Add(u, v) == Vector(u.x + v.x, u.y + v.y, u.z + v.z)
  {}

  /** Scaling a vector by any factor keeps it a vector. */
  lemma ScaledVector(v: Tuple, s: real)
    requires IsVector(v)
    ensures IsVector(Scale(v, s))
  {}

  // ---------------------------------------------------------------- algebra of the operators

  /** Subtraction undoes addition, slot by slot, and is addition of the negation. */
  lemma AddSubInverse(a: Tuple, b: Tuple)
    ensures Sub(Add(a, b), b) == a
    ensures Add(Sub(a, b), b) == a
    ensures Sub(a, b) == Add(a, Neg(b))
    ensures Neg(Neg(a)) == a
    ensures Add(a, b) == Add(b, a)
  {}

  /** Division by s is multiplication by 1/s. */
  lemma DivIsScaleByReciprocal(a: Tuple, s: real)
    requires s != 0.0
    ensures Div(a, s) == Scale(a, 1.0 / s)
  {}

  /** Division by s undoes multiplication by s. */
  lemma DivUndoesScale(a: Tuple, s: real)
    requires s != 0.0
    ensures Div(Scale(a, s), s) == a
  {}

  lemma DotSymmetric(a: Tuple, b: Tuple)
    ensures Dot(a, b) == Dot(b, a)
  {}

  /** For two vectors the four-slot dot product is the usual xyz dot product. */
  lemma DotOfVectors(u: Tuple, v: Tuple)
    requires IsVector(u) && IsVector(v)
    ensures Dot(u, v) == u.x * v.x + u.y * v.y + u.z * v.z
  {}

  /** a × b = −(b × a). */
  lemma CrossAntiCommutative(a: Tuple, b: Tuple)
    ensures Cross(a, b) == Neg(Cross(b, a))
  {}

  lemma HadamardCommutative(a: Tuple, b: Tuple)
    ensures Hadamard(a, b) == Hadamard(b, a)
  {}

  /** Under IsSqrt the magnitude is the non-negative length whose square is x² + y² + z². */
  lemma MagnitudeSquared(t: Tuple, sqrt: real -> real)
    requires IsSqrt(sqrt)
    ensures 0.0 <= Magnitude(t, sqrt)
    ensures Magnitude(t, sqrt) * Magnitude(t, sqrt) == t.x * t.x + t.y * t.y + t.z * t.z
  {}

  /** The magnitude reads only x, y and z. */
  lemma MagnitudeIgnoresW(t: Tuple, w: real, sqrt: real -> real)
    ensures Magnitude(t.(w := w), sqrt) == Magnitude(t, sqrt)
  {
    assert SquaredLength(t.(w := w)) == SquaredLength(t);
  }

  /** Normalizing a vector of non-zero length gives a vector of length 1. */
  lemma NormalizedMagnitude(v: Tuple, sqrt: real -> real)
    requires IsSqrt(sqrt) && IsVector(v) && Magnitude(v, sqrt) != 0.0
    ensures IsVector(Normalize(v, sqrt))
    ensures Magnitude(Normalize(v, sqrt), sqrt) == 1.0
  {
    var m := Magnitude(v, sqrt);
    MagnitudeSquared(v, sqrt);
    UnitAfterDivision(v.x, v.y, v.z, m);
    var n := Normalize(v, sqrt);
    assert n.x == v.x / m && n.y == v.y / m && n.z == v.z / m;
    assert SquaredLength(n) == 1.0;
    SqrtOf(sqrt, 1.0, 1.0);
  }

  /** A vector of length 1 is its own normalisation. */
  lemma NormalizeUnit(v: Tuple, sqrt: real -> real)
    requires IsVector(v) && SquaredLength(v) == 1.0 && sqrt(1.0) == 1.0
    ensures Magnitude(v, sqrt) == 1.0 && Normalize(v, sqrt) == v
  {}

  /** Whether the square of the length lies in [1, 1 + Epsilon) and each slot in [−1, 1]:
      the vector is within the tolerance of unit length. */
  predicate NearlyUnit(v: Tuple) {
    IsVector(v) && 1.0 <= SquaredLength(v) < 1.0 + Epsilon
    && Abs(v.x) <= 1.0 && Abs(v.y) <= 1.0 && Abs(v.z) <= 1.0
  }

  /** A root of a radicand in [1, 1 + Epsilon) lies in [1, 1 + Epsilon). */
  lemma RootNearOne(m: real, q: real)
    requires 0.0 <= m && m * m == q && 1.0 <= q < 1.0 + Epsilon
    ensures 1.0 <= m < 1.0 + Epsilon
  {
    assert m * 1.0 <= m * m;
  }

  /** A factor in [−1, 1] shrinks a non-negative k to within [−k, k]. */
  lemma BoundedProduct(c: real, k: real)
    requires -1.0 <= c <= 1.0 && 0.0 <= k
    ensures -k <= c * k <= k
  {
    if c < 0.0 {
      assert (-c) * k <= 1.0 * k;
    } else {
      assert c * k <= 1.0 * k;
    }
  }

  /** Dividing a slot in [−1, 1] by m in [1, 1 + Epsilon) moves it by less than Epsilon. */
  lemma SlotNearlyUnchanged(c: real, m: real)
    requires Abs(c) <= 1.0 && 1.0 <= m < 1.0 + Epsilon
    ensures Abs(c / m - c) < Epsilon
  {
    var k := 1.0 / m;
    assert m * k == 1.0;
    assert 0.0 < k <= 1.0;
    var e := c * k;
    BoundedProduct(c, k);
    var q := m - 1.0;
    BoundedProduct(e, q);
    var d := c / m - c;
    assert c / m == e;
    assert e * m == c * (m * k) == c;
    assert e * q == e * m - e;
    assert d == -(e * q);
    assert -q <= d <= q;
  }

  /** Normalising a nearly unit vector changes it by less than the tolerance. */
  lemma NormalizeNearlyUnit(v: Tuple, sqrt: real -> real)
    requires IsSqrt(sqrt) && NearlyUnit(v)
    ensures Magnitude(v, sqrt) != 0.0 && ApproxEq(Normalize(v, sqrt), v)
  {
    var m := Magnitude(v, sqrt);
    MagnitudeSquared(v, sqrt);
    RootNearOne(m, SquaredLength(v));
    SlotNearlyUnchanged(v.x, m);
    SlotNearlyUnchanged(v.y, m);
    SlotNearlyUnchanged(v.z, m);
  }

  // ---------------------------------------------------------------- tolerant equality

  lemma ApproxEqReflexiveSymmetric(a: Tuple, b: Tuple)
    ensures ApproxEq(a, a)
    ensures ApproxEq(a, b) == ApproxEq(b, a)
  {}

  /** A vector never equals the point with the same xyz: their w slots differ by 1. */
  lemma VectorIsNotPoint(x: real, y: real, z: real)
    ensures !ApproxEq(Vector(x, y, z), Point(x, y, z))
  {}

  /** The tolerance makes the equality non-transitive. */
  lemma ApproxEqNotTransitive()
    ensures ApproxEq(Vector(0.0, 0.0, 0.0), Vector(0.000006, 0.0, 0.0))
    ensures ApproxEq(Vector(0.000006, 0.0, 0.0), Vector(0.000012, 0.0, 0.0))
    ensures !ApproxEq(Vector(0.0, 0.0, 0.0), Vector(0.000012, 0.0, 0.0))
  {}

  // ---------------------------------------------------------------- the unit tests' values

  lemma TuplePointTest()
    ensures Point(4.3, -4.2, 3.1) == Tuple(4.3, -4.2, 3.1, 1.0)
  {}

  lemma TupleVectorTest()
    ensures Vector(4.3, -4.2, 3.1) == Tuple(4.3, -4.2, 3.1, 0.0)
  {}

  lemma ColorsAreTuplesTest()
    ensures Color(-0.5, 0.4, 1.7) == Tuple(-0.5, 0.4, 1.7, 0.0)
  {}

  lemma EqualityTests()
    ensures ApproxEq(Vector(1.0, 1.0, 1.0), Vector(1.0, 1.0, 1.0))
    ensures !ApproxEq(Vector(0.0, 1.0, 0.0), Vector(1.0, 0.0, 0.0))
  {}

  lemma AddingTwoTuplesTest()
    ensures Add(Tuple(3.0, -2.0, 5.0, 1.0), Tuple(-2.0, 3.0, 1.0, 0.0)) == Tuple(1.0, 1.0, 6.0, 1.0)
  {}

  lemma SubtractingTwoPointsTest()
    ensures Sub(Point(3.0, 2.0, 1.0), Point(5.0, 6.0, 7.0)) == Vector(-2.0, -4.0, -6.0)
  {}

  lemma SubtractingVectorFromPointTest()
    ensures Sub(Point(3.0, 2.0, 1.0), Vector(5.0, 6.0, 7.0)) == Point(-2.0, -4.0, -6.0)
  {}

  lemma SubtractingTwoVectorsTest()
    ensures Sub(Vector(3.0, 2.0, 1.0), Vector(5.0, 6.0, 7.0)) == Vector(-2.0, -4.0, -6.0)
  {}

  lemma SubtractingVectorFromZeroVectorTest()
    ensures Sub(Vector(0.0, 0.0, 0.0), Vector(1.0, -2.0, 3.0)) == Vector(-1.0, 2.0, -3.0)
  {}

  lemma NegatingTupleTest()
    ensures Neg(Tuple(1.0, -2.0, 3.0, -4.0)) == Tuple(-1.0, 2.0, -3.0, 4.0)
  {}

  lemma MultiplyingTupleByScalarTest()
    ensures Scale(Tuple(1.0, -2.0, 3.0, -4.0), 3.5) == Tuple(3.5, -7.0, 10.5, -14.0)
  {}

  lemma MultiplyingTupleByFractionTest()
    ensures Scale(Tuple(1.0, -2.0, 3.0, -4.0), 0.5) == Tuple(0.5, -1.0, 1.5, -2.0)
  {}

  lemma DividingTupleByScalarTest()
    ensures Div(Tuple(1.0, -2.0, 3.0, -4.0), 2.0) == Tuple(0.5, -1.0, 1.5, -2.0)
  {}

  lemma AddingColorsTest()
    ensures Add(Color(0.9, 0.6, 0.75), Color(0.7, 0.1, 0.25)) == Color(1.6, 0.7, 1.0)
  {}

  /** Over the reals the subtraction that needs the tolerance in f64 is exact. */
  lemma SubtractingColorsTest()
    ensures Sub(Color(0.9, 0.6, 0.75), Color(0.7, 0.1, 0.25)) == Color(0.2, 0.5, 0.5)
  {}

  lemma MultiplyingColorByScalarTest()
    ensures Scale(Color(0.2, 0.3, 0.4), 2.0) == Color(0.4, 0.6, 0.8)
  {}

  lemma MultiplyingColorsTest()
    ensures Hadamard(Color(1.0, 0.2, 0.4), Color(0.9, 1.0, 0.1)) == Color(0.9, 0.2, 0.04)
  {}

  lemma DotProductTest()
    ensures Dot(Vector(1.0, 2.0, 3.0), Vector(2.0, 3.0, 4.0)) == 20.0
  {}

  lemma CrossProductTest()
    ensures Cross(Vector(1.0, 2.0, 3.0), Vector(2.0, 3.0, 4.0)) == Vector(-1.0, 2.0, -1.0)
  {}

  lemma CrossProductReversedTest()
    ensures Cross(Vector(2.0, 3.0, 4.0), Vector(1.0, 2.0, 3.0)) == Vector(1.0, -2.0, 1.0)
  {}

  lemma MagnitudeOfVectorsTest(sqrt: real -> real)
    requires IsSqrt(sqrt)
    ensures Magnitude(Vector(1.0, 0.0, 0.0), sqrt) == 1.0
    ensures Magnitude(Vector(0.0, 1.0, 0.0), sqrt) == 1.0
    ensures Magnitude(Vector(0.0, 0.0, 1.0), sqrt) == 1.0
    ensures Magnitude(Vector(1.0, 2.0, 3.0), sqrt) == sqrt(14.0)
    ensures Magnitude(Vector(-1.0, -2.0, -3.0), sqrt) == sqrt(14.0)
  {
    SqrtOf(sqrt, 1.0, 1.0);
  }

  lemma NormalizingVectorsTest(sqrt: real -> real)
    requires IsSqrt(sqrt)
    ensures Normalize(Vector(4.0, 0.0, 0.0), sqrt) == Vector(1.0, 0.0, 0.0)
    ensures Normalize(Vector(1.0, 2.0, 3.0), sqrt)
         == Vector(1.0 / sqrt(14.0), 2.0 / sqrt(14.0), 3.0 / sqrt(14.0))
  {
    SqrtOf(sqrt, 16.0, 4.0);
    assert 0.0 < sqrt(14.0);
  }

  /** `magnitude_of_normalized_vector`. */
  lemma MagnitudeOfNormalizedVectorTest(sqrt: real -> real)
    requires IsSqrt(sqrt)
    ensures Magnitude(Vector(1.0, 2.0, 3.0), sqrt) != 0.0
    ensures Magnitude(Normalize(Vector(1.0, 2.0, 3.0), sqrt), sqrt) == 1.0
  {
    MagnitudeSquared(Vector(1.0, 2.0, 3.0), sqrt);
    NormalizedMagnitude(Vector(1.0, 2.0, 3.0), sqrt);
  }
}
