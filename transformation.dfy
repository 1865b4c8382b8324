/** The closed-form 4 × 4 transforms of `src/transformation.rs`. Each builder is a literal
    row-major buffer; the rotations take `sin` and `cos` as parameters, and what is proved
    about them holds for whatever values those functions return. */
module Transformations {
  import opened Tuples
  import opened Matrices

  function Translation(x: real, y: real, z: real): (m: Matrix)
    ensures Is4x4(m) && AffineLastRow(m)
  {
    FromVector(4, [1.0, 0.0, 0.0, x,
                   0.0, 1.0, 0.0, y,
                   0.0, 0.0, 1.0, z,
                   0.0, 0.0, 0.0, 1.0])
  }

  function Scaling(x: real, y: real, z: real): (m: Matrix)
    ensures Is4x4(m) && AffineLastRow(m)
  {
    FromVector(4, [x, 0.0, 0.0, 0.0,
                   0.0, y, 0.0, 0.0,
                   0.0, 0.0, z, 0.0,
                   0.0, 0.0, 0.0, 1.0])
  }

  function RotationX(r: real, sin: real -> real, cos: real -> real): (m: Matrix)
    ensures Is4x4(m) && AffineLastRow(m)
  {
    FromVector(4, [1.0, 0.0, 0.0, 0.0,
                   0.0, cos(r), -sin(r), 0.0,
                   0.0, sin(r), cos(r), 0.0,
                   0.0, 0.0, 0.0, 1.0])
  }

  function RotationY(r: real, sin: real -> real, cos: real -> real): (m: Matrix)
    ensures Is4x4(m) && AffineLastRow(m)
  {
    FromVector(4, [cos(r), 0.0, sin(r), 0.0,
                   0.0, 1.0, 0.0, 0.0,
                   -sin(r), 0.0, cos(r), 0.0,
                   0.0, 0.0, 0.0, 1.0])
  }

  function RotationZ(r: real, sin: real -> real, cos: real -> real): (m: Matrix)
    ensures Is4x4(m) && AffineLastRow(m)
  {
    FromVector(4, [cos(r), -sin(r), 0.0, 0.0,
                   sin(r), cos(r), 0.0, 0.0,
                   0.0, 0.0, 1.0, 0.0,
                   0.0, 0.0, 0.0, 1.0])
  }

  function Shearing(xy: real, xz: real, yx: real, yz: real, zx: real, zy: real): (m: Matrix)
    ensures Is4x4(m) && AffineLastRow(m)
  {
    FromVector(4, [1.0, xy, xz, 0.0,
                   yx, 1.0, yz, 0.0,
                   zx, zy, 1.0, 0.0,
                   0.0, 0.0, 0.0, 1.0])
  }

  // ---------------------------------------------------------------- what each builder does

  /** A translation moves a point by (x, y, z). */
  lemma TranslationMovesPoint(x: real, y: real, z: real, p: Tuple)
    requires IsPoint(p)
    ensures TupleProd(Translation(x, y, z), p) == Point(p.x + x, p.y + y, p.z + z)
  {
    TranslationActs(x, y, z, p);
  }

  /** A translation leaves every vector unchanged. */
  lemma TranslationKeepsVector(x: real, y: real, z: real, v: Tuple)
    requires IsVector(v)
    ensures TupleProd(Translation(x, y, z), v) == v
  {}

  /** Scaling multiplies x, y and z componentwise and keeps w, for points and vectors alike. */
  lemma ScalingScales(x: real, y: real, z: real, t: Tuple)
    ensures TupleProd(Scaling(x, y, z), t) == Tuple(t.x * x, t.y * y, t.z * z, t.w)
  {}

  /** Shearing moves each coordinate in proportion to the other two. */
  lemma ShearingShears(xy: real, xz: real, yx: real, yz: real, zx: real, zy: real, p: Tuple)
    requires IsPoint(p)
    ensures TupleProd(Shearing(xy, xz, yx, yz, zx, zy), p)
         == Point(p.x + xy * p.y + xz * p.z, p.y + yx * p.x + yz * p.z, p.z + zx * p.x + zy * p.y)
  {}

  /** Rotating about x keeps x and turns (y, z) by the angle whose sine and cosine are s, c. */
  lemma RotationXRotates(r: real, sin: real -> real, cos: real -> real, t: Tuple)
    ensures TupleProd(RotationX(r, sin, cos), t)
         == Tuple(t.x, cos(r) * t.y - sin(r) * t.z, sin(r) * t.y + cos(r) * t.z, t.w)
  {}

  /** With sin² + cos² = 1 a rotation about x keeps the squared length. */
  lemma RotationXKeepsLength(r: real, sin: real -> real, cos: real -> real, t: Tuple)
    requires sin(r) * sin(r) + cos(r) * cos(r) == 1.0
    ensures SquaredLength(TupleProd(RotationX(r, sin, cos), t)) == SquaredLength(t)
  {
    RotationXRotates(r, sin, cos, t);
    var s, c := sin(r), cos(r);
    assert (c * t.y - s * t.z) * (c * t.y - s * t.z) + (s * t.y + c * t.z) * (s * t.y + c * t.z)
        == (s * s + c * c) * (t.y * t.y + t.z * t.z);
    MulBoth(s * s + c * c, 1.0, t.y * t.y + t.z * t.z);
  }

  /** Rotating about y keeps y and turns (z, x) by the angle. */
  lemma RotationYRotates(r: real, sin: real -> real, cos: real -> real, t: Tuple)
    ensures TupleProd(RotationY(r, sin, cos), t)
         == Tuple(cos(r) * t.x + sin(r) * t.z, t.y, cos(r) * t.z - sin(r) * t.x, t.w)
  {}

  lemma RotationYKeepsLength(r: real, sin: real -> real, cos: real -> real, t: Tuple)
    requires sin(r) * sin(r) + cos(r) * cos(r) == 1.0
    ensures SquaredLength(TupleProd(RotationY(r, sin, cos), t)) == SquaredLength(t)
  {
    RotationYRotates(r, sin, cos, t);
    var s, c := sin(r), cos(r);
    assert (c * t.x + s * t.z) * (c * t.x + s * t.z) + (c * t.z - s * t.x) * (c * t.z - s * t.x)
        == (s * s + c * c) * (t.x * t.x + t.z * t.z);
    MulBoth(s * s + c * c, 1.0, t.x * t.x + t.z * t.z);
  }

  /** Rotating about z keeps z and turns (x, y) by the angle. */
  lemma RotationZRotates(r: real, sin: real -> real, cos: real -> real, t: Tuple)
    ensures TupleProd(RotationZ(r, sin, cos), t)
         == Tuple(cos(r) * t.x - sin(r) * t.y, sin(r) * t.x + cos(r) * t.y, t.z, t.w)
  {}

  lemma RotationZKeepsLength(r: real, sin: real -> real, cos: real -> real, t: Tuple)
    requires sin(r) * sin(r) + cos(r) * cos(r) == 1.0
    ensures SquaredLength(TupleProd(RotationZ(r, sin, cos), t)) == SquaredLength(t)
  {
    RotationZRotates(r, sin, cos, t);
    var s, c := sin(r), cos(r);
    assert (c * t.x - s * t.y) * (c * t.x - s * t.y) + (s * t.x + c * t.y) * (s * t.x + c * t.y)
        == (s * s + c * c) * (t.x * t.x + t.y * t.y);
    MulBoth(s * s + c * c, 1.0, t.x * t.x + t.y * t.y);
  }

  // ---------------------------------------------------------------- inverses

  /** A translation adds w·(x, y, z): w = 1 moves points and w = 0 leaves vectors. */
  lemma TranslationActs(x: real, y: real, z: real, t: Tuple)
    ensures TupleProd(Translation(x, y, z), t) == Tuple(t.x + x * t.w, t.y + y * t.w, t.z + z * t.w, t.w)
  {}

  /** Translating by (−x, −y, −z) undoes translating by (x, y, z), on every tuple. */
  lemma TranslationInverse(x: real, y: real, z: real, t: Tuple)
    ensures TupleProd(Translation(-x, -y, -z), TupleProd(Translation(x, y, z), t)) == t
  {
    TranslationActs(x, y, z, t);
    TranslationActs(-x, -y, -z, TupleProd(Translation(x, y, z), t));
  }

  /** Scaling by the reciprocals undoes scaling by non-zero factors, on every tuple. */
  lemma ScalingInverse(x: real, y: real, z: real, t: Tuple)
    requires x != 0.0 && y != 0.0 && z != 0.0
    ensures TupleProd(Scaling(1.0 / x, 1.0 / y, 1.0 / z), TupleProd(Scaling(x, y, z), t)) == t
  {
    ScalingScales(x, y, z, t);
    ScalingScales(1.0 / x, 1.0 / y, 1.0 / z, TupleProd(Scaling(x, y, z), t));
  }

  /** The rotation about x by an angle q with sin q = −sin r and cos q = cos r (the angle −r)
      undoes the rotation by r, when sin² r + cos² r = 1. */
  lemma RotationXInverse(r: real, q: real, sin: real -> real, cos: real -> real, t: Tuple)
    requires sin(q) == -sin(r) && cos(q) == cos(r) && sin(r) * sin(r) + cos(r) * cos(r) == 1.0
    ensures TupleProd(RotationX(q, sin, cos), TupleProd(RotationX(r, sin, cos), t)) == t
  {
    var s, c := sin(r), cos(r);
    RotationXRotates(r, sin, cos, t);
    var u := TupleProd(RotationX(r, sin, cos), t);
    RotationXRotates(q, sin, cos, u);
    TurnBack(s, c, t.y, t.z);
    TurnedBack(t, u, TupleProd(RotationX(q, sin, cos), u), s, c);
  }

  /** The tuple bookkeeping of RotationXInverse: u is t turned by (c, s) and v is u turned
      by (c, −s). */
  lemma TurnedBack(t: Tuple, u: Tuple, v: Tuple, s: real, c: real)
    requires s * s + c * c == 1.0
    requires u == Tuple(t.x, c * t.y - s * t.z, s * t.y + c * t.z, t.w)
    requires v == Tuple(u.x, c * u.y - (-s) * u.z, (-s) * u.y + c * u.z, u.w)
    requires c * (c * t.y - s * t.z) - (-s) * (s * t.y + c * t.z) == t.y
    requires (-s) * (c * t.y - s * t.z) + c * (s * t.y + c * t.z) == t.z
    ensures v == t
  {}

  /** Turning (y, z) by (c, s) and then by (c, −s) gives (y, z) back when s² + c² = 1. */
  lemma TurnBack(s: real, c: real, y: real, z: real)
    requires s * s + c * c == 1.0
    ensures c * (c * y - s * z) - (-s) * (s * y + c * z) == y
    ensures (-s) * (c * y - s * z) + c * (s * y + c * z) == z
  {
    assert c * (c * y - s * z) - (-s) * (s * y + c * z) == (s * s + c * c) * y;
    assert (-s) * (c * y - s * z) + c * (s * y + c * z) == (s * s + c * c) * z;
    MulBoth(s * s + c * c, 1.0, y);
    MulBoth(s * s + c * c, 1.0, z);
  }

  /** Two translations compose into the translation by the summed offsets. */
  lemma TranslationProduct(a: real, b: real, c: real, x: real, y: real, z: real)
    ensures Multipliable(Translation(a, b, c), Translation(x, y, z))
    ensures Product(Translation(a, b, c), Translation(x, y, z)) == Translation(a + x, b + y, c + z)
  {
    TranslationRows(a, b, c, x, y, z);
    ProductFromRows(Translation(a, b, c), Translation(x, y, z), Translation(a + x, b + y, c + z));
  }

  /** Every row of translation(a + x, b + y, c + z) is the matching row of the product. */
  lemma TranslationRows(a: real, b: real, c: real, x: real, y: real, z: real)
    ensures var m, n, s := Translation(a, b, c), Translation(x, y, z), Translation(a + x, b + y, c + z);
      RowOfProduct(m, n, s, 0) && RowOfProduct(m, n, s, 1) && RowOfProduct(m, n, s, 2) && RowOfProduct(m, n, s, 3)
  {
    var m, n, s := Translation(a, b, c), Translation(x, y, z), Translation(a + x, b + y, c + z);
    TranslationRowsCols(a, b, c);
    TranslationRowsCols(x, y, z);
    TranslationRowsCols(a + x, b + y, c + z);
    assert RowOfProduct(m, n, s, 0) by {}
    assert RowOfProduct(m, n, s, 1) by {}
    assert RowOfProduct(m, n, s, 2) by {}
    assert RowOfProduct(m, n, s, 3) by {
      assert Dot(Tuple(0.0, 0.0, 0.0, 1.0), Tuple(x, y, z, 1.0)) == 1.0;
    }
  }

  /** The rows and columns of translation(x, y, z): the identity with (x, y, z) in the last column. */
  lemma TranslationRowsCols(x: real, y: real, z: real)
    ensures Row(Translation(x, y, z), 0) == Tuple(1.0, 0.0, 0.0, x) && Col(Translation(x, y, z), 0) == Tuple(1.0, 0.0, 0.0, 0.0)
    ensures Row(Translation(x, y, z), 1) == Tuple(0.0, 1.0, 0.0, y) && Col(Translation(x, y, z), 1) == Tuple(0.0, 1.0, 0.0, 0.0)
    ensures Row(Translation(x, y, z), 2) == Tuple(0.0, 0.0, 1.0, z) && Col(Translation(x, y, z), 2) == Tuple(0.0, 0.0, 1.0, 0.0)
    ensures Row(Translation(x, y, z), 3) == Tuple(0.0, 0.0, 0.0, 1.0) && Col(Translation(x, y, z), 3) == Tuple(x, y, z, 1.0)
  {}

  /** Two scalings compose into the scaling by the products of the factors. */
  lemma ScalingProduct(a: real, b: real, c: real, x: real, y: real, z: real)
    ensures Multipliable(Scaling(a, b, c), Scaling(x, y, z))
    ensures Product(Scaling(a, b, c), Scaling(x, y, z)) == Scaling(a * x, b * y, c * z)
  {
    ScalingRows(a, b, c, x, y, z);
    ProductFromRows(Scaling(a, b, c), Scaling(x, y, z), Scaling(a * x, b * y, c * z));
  }

  /** Every row of scaling(a·x, b·y, c·z) is the matching row of the product. */
  lemma ScalingRows(a: real, b: real, c: real, x: real, y: real, z: real)
    ensures var m, n, s := Scaling(a, b, c), Scaling(x, y, z), Scaling(a * x, b * y, c * z);
      RowOfProduct(m, n, s, 0) && RowOfProduct(m, n, s, 1) && RowOfProduct(m, n, s, 2) && RowOfProduct(m, n, s, 3)
  {
    var m, n, s := Scaling(a, b, c), Scaling(x, y, z), Scaling(a * x, b * y, c * z);
    ScalingRowsCols(a, b, c);
    ScalingRowsCols(x, y, z);
    ScalingRowsCols(a * x, b * y, c * z);
    assert RowOfProduct(m, n, s, 0) by {}
    assert RowOfProduct(m, n, s, 1) by {}
    assert RowOfProduct(m, n, s, 2) by {}
    assert RowOfProduct(m, n, s, 3) by {}
  }

  /** The rows and columns of scaling(x, y, z): the diagonal (x, y, z, 1) and zeros elsewhere. */
  lemma ScalingRowsCols(x: real, y: real, z: real)
    ensures Row(Scaling(x, y, z), 0) == Tuple(x, 0.0, 0.0, 0.0) && Col(Scaling(x, y, z), 0) == Tuple(x, 0.0, 0.0, 0.0)
    ensures Row(Scaling(x, y, z), 1) == Tuple(0.0, y, 0.0, 0.0) && Col(Scaling(x, y, z), 1) == Tuple(0.0, y, 0.0, 0.0)
    ensures Row(Scaling(x, y, z), 2) == Tuple(0.0, 0.0, z, 0.0) && Col(Scaling(x, y, z), 2) == Tuple(0.0, 0.0, z, 0.0)
    ensures Row(Scaling(x, y, z), 3) == Tuple(0.0, 0.0, 0.0, 1.0) && Col(Scaling(x, y, z), 3) == Tuple(0.0, 0.0, 0.0, 1.0)
  {}

  /** translation(−x, −y, −z) is a right inverse of translation(x, y, z). */
  lemma TranslationInverseProduct(x: real, y: real, z: real)
    ensures Multipliable(Translation(x, y, z), Translation(-x, -y, -z))
    ensures Product(Translation(x, y, z), Translation(-x, -y, -z)) == Identity()
  {
    TranslationProduct(x, y, z, -x, -y, -z);
  }

  /** scaling(1/x, 1/y, 1/z) is a right inverse of scaling(x, y, z) for non-zero factors. */
  lemma ScalingInverseProduct(x: real, y: real, z: real)
    requires x != 0.0 && y != 0.0 && z != 0.0
    ensures Multipliable(Scaling(x, y, z), Scaling(1.0 / x, 1.0 / y, 1.0 / z))
    ensures Product(Scaling(x, y, z), Scaling(1.0 / x, 1.0 / y, 1.0 / z)) == Identity()
  {
    var ix, iy, iz := 1.0 / x, 1.0 / y, 1.0 / z;
    ScalingProduct(x, y, z, ix, iy, iz);
    assert x * ix == 1.0 && y * iy == 1.0 && z * iz == 1.0;
    assert Scaling(x * ix, y * iy, z * iz).elems == Identity().elems;
  }

  // ---------------------------------------------------------------- composition order

  /** The chained product c × b × a applies a first, then b, then c. */
  lemma ChainedTransforms(a: Matrix, b: Matrix, c: Matrix, p: Tuple)
    requires Is4x4(a) && Is4x4(b) && Is4x4(c)
    ensures Multipliable(c, b) && Multipliable(Product(c, b), a)
    ensures Is4Wide(Product(Product(c, b), a))
    ensures TupleProd(Product(Product(c, b), a), p) == TupleProd(c, TupleProd(b, TupleProd(a, p)))
  {
    ProductAt(c, b, 0, 0);
    ProductTupleProd(Product(c, b), a, p);
    ProductTupleProd(c, b, TupleProd(a, p));
  }

  // ---------------------------------------------------------------- the unit tests' values

  lemma TranslationTest()
    ensures TupleProd(Translation(5.0, -3.0, 2.0), Point(-3.0, 4.0, 5.0)) == Point(2.0, 1.0, 7.0)
  {
    TranslationMovesPoint(5.0, -3.0, 2.0, Point(-3.0, 4.0, 5.0));
  }

  /** The inverse of translation(5, −3, 2) is translation(−5, 3, −2). */
  lemma TranslationInverseTest()
    ensures TupleProd(Translation(-5.0, 3.0, -2.0), Point(-3.0, 4.0, 5.0)) == Point(-8.0, 7.0, 3.0)
  {
    TranslationMovesPoint(-5.0, 3.0, -2.0, Point(-3.0, 4.0, 5.0));
  }

  lemma TranslationKeepsVectorTest()
    ensures TupleProd(Translation(5.0, -3.0, 2.0), Vector(-3.0, 4.0, 5.0)) == Vector(-3.0, 4.0, 5.0)
  {
    TranslationKeepsVector(5.0, -3.0, 2.0, Vector(-3.0, 4.0, 5.0));
  }

  lemma ScalingPointTest()
    ensures TupleProd(Scaling(2.0, 3.0, 4.0), Point(-4.0, 6.0, 8.0)) == Point(-8.0, 18.0, 32.0)
  {
    ScalingScales(2.0, 3.0, 4.0, Point(-4.0, 6.0, 8.0));
  }

  lemma ScalingVectorTest()
    ensures TupleProd(Scaling(2.0, 3.0, 4.0), Vector(-4.0, 6.0, 8.0)) == Vector(-8.0, 18.0, 32.0)
  {
    ScalingScales(2.0, 3.0, 4.0, Vector(-4.0, 6.0, 8.0));
  }

  /** The inverse of scaling(2, 3, 4) is scaling(1/2, 1/3, 1/4). */
  lemma ScalingInverseTest()
    ensures TupleProd(Scaling(0.5, 1.0 / 3.0, 0.25), Vector(-4.0, 6.0, 8.0)) == Vector(-2.0, 2.0, 2.0)
  {
    ScalingScales(0.5, 1.0 / 3.0, 0.25, Vector(-4.0, 6.0, 8.0));
  }

  lemma ReflectionTest()
    ensures TupleProd(Scaling(-1.0, 1.0, 1.0), Point(2.0, 3.0, 4.0)) == Point(-2.0, 3.0, 4.0)
  {
    ScalingScales(-1.0, 1.0, 1.0, Point(2.0, 3.0, 4.0));
  }

  /** Turning (0, 1, 0) about x by an eighth (sine and cosine both h, which is √2/2 in f64)
      and by a quarter turn (sine 1, cosine 0). */
  lemma RotatingAroundXTest(eighth: real, quarter: real, sin: real -> real, cos: real -> real, h: real)
    requires sin(eighth) == h && cos(eighth) == h && sin(quarter) == 1.0 && cos(quarter) == 0.0
    ensures TupleProd(RotationX(eighth, sin, cos), Point(0.0, 1.0, 0.0)) == Point(0.0, h, h)
    ensures TupleProd(RotationX(quarter, sin, cos), Point(0.0, 1.0, 0.0)) == Point(0.0, 0.0, 1.0)
  {
    RotationXRotates(eighth, sin, cos, Point(0.0, 1.0, 0.0));
    RotationXRotates(quarter, sin, cos, Point(0.0, 1.0, 0.0));
  }

  /** The inverse of the eighth turn about x is the turn by −π/4 (sine −h, cosine h): it
      sends (0, 1, 0) to (0, h, −h), and it undoes the eighth turn on every tuple. */
  lemma InverseXRotationTest(eighth: real, back: real, sin: real -> real, cos: real -> real, h: real)
    requires sin(eighth) == h && cos(eighth) == h && sin(back) == -h && cos(back) == h && h * h == 0.5
    ensures TupleProd(RotationX(back, sin, cos), Point(0.0, 1.0, 0.0)) == Point(0.0, h, -h)
    ensures forall t :: TupleProd(RotationX(back, sin, cos), TupleProd(RotationX(eighth, sin, cos), t)) == t
  {
    RotationXRotates(back, sin, cos, Point(0.0, 1.0, 0.0));
    forall t
      ensures TupleProd(RotationX(back, sin, cos), TupleProd(RotationX(eighth, sin, cos), t)) == t
    {
      RotationXInverse(eighth, back, sin, cos, t);
    }
  }

  /** Turning (0, 0, 1) about y. */
  lemma RotatingAroundYTest(eighth: real, quarter: real, sin: real -> real, cos: real -> real, h: real)
    requires sin(eighth) == h && cos(eighth) == h && sin(quarter) == 1.0 && cos(quarter) == 0.0
    ensures TupleProd(RotationY(eighth, sin, cos), Point(0.0, 0.0, 1.0)) == Point(h, 0.0, h)
    ensures TupleProd(RotationY(quarter, sin, cos), Point(0.0, 0.0, 1.0)) == Point(1.0, 0.0, 0.0)
  {
    RotationYRotates(eighth, sin, cos, Point(0.0, 0.0, 1.0));
    RotationYRotates(quarter, sin, cos, Point(0.0, 0.0, 1.0));
  }

  /** Turning (0, 1, 0) about z. */
  lemma RotatingAroundZTest(eighth: real, quarter: real, sin: real -> real, cos: real -> real, h: real)
    requires sin(eighth) == h && cos(eighth) == h && sin(quarter) == 1.0 && cos(quarter) == 0.0
    ensures TupleProd(RotationZ(eighth, sin, cos), Point(0.0, 1.0, 0.0)) == Point(-h, h, 0.0)
    ensures TupleProd(RotationZ(quarter, sin, cos), Point(0.0, 1.0, 0.0)) == Point(-1.0, 0.0, 0.0)
  {
    RotationZRotates(eighth, sin, cos, Point(0.0, 1.0, 0.0));
    RotationZRotates(quarter, sin, cos, Point(0.0, 1.0, 0.0));
  }

  // The six shearing tests: each factor moves one coordinate of (2, 3, 4) by another.

  lemma ShearingXByYTest()
    ensures TupleProd(Shearing(1.0, 0.0, 0.0, 0.0, 0.0, 0.0), Point(2.0, 3.0, 4.0)) == Point(5.0, 3.0, 4.0)
  {
    ShearingShears(1.0, 0.0, 0.0, 0.0, 0.0, 0.0, Point(2.0, 3.0, 4.0));
  }

  lemma ShearingXByZTest()
    ensures TupleProd(Shearing(0.0, 1.0, 0.0, 0.0, 0.0, 0.0), Point(2.0, 3.0, 4.0)) == Point(6.0, 3.0, 4.0)
  {
    ShearingShears(0.0, 1.0, 0.0, 0.0, 0.0, 0.0, Point(2.0, 3.0, 4.0));
  }

  lemma ShearingYByXTest()
    ensures TupleProd(Shearing(0.0, 0.0, 1.0, 0.0, 0.0, 0.0), Point(2.0, 3.0, 4.0)) == Point(2.0, 5.0, 4.0)
  {
    ShearingShears(0.0, 0.0, 1.0, 0.0, 0.0, 0.0, Point(2.0, 3.0, 4.0));
  }

  lemma ShearingYByZTest()
    ensures TupleProd(Shearing(0.0, 0.0, 0.0, 1.0, 0.0, 0.0), Point(2.0, 3.0, 4.0)) == Point(2.0, 7.0, 4.0)
  {
    ShearingShears(0.0, 0.0, 0.0, 1.0, 0.0, 0.0, Point(2.0, 3.0, 4.0));
  }

  lemma ShearingZByXTest()
    ensures TupleProd(Shearing(0.0, 0.0, 0.0, 0.0, 1.0, 0.0), Point(2.0, 3.0, 4.0)) == Point(2.0, 3.0, 6.0)
  {
    ShearingShears(0.0, 0.0, 0.0, 0.0, 1.0, 0.0, Point(2.0, 3.0, 4.0));
  }

  lemma ShearingZByYTest()
    ensures TupleProd(Shearing(0.0, 0.0, 0.0, 0.0, 0.0, 1.0), Point(2.0, 3.0, 4.0)) == Point(2.0, 3.0, 7.0)
  {
    ShearingShears(0.0, 0.0, 0.0, 0.0, 0.0, 1.0, Point(2.0, 3.0, 4.0));
  }

  /** The three steps of the sequence test, one transform at a time. */
  lemma IndividualRotationTest(r: real, sin: real -> real, cos: real -> real)
    requires sin(r) == 1.0 && cos(r) == 0.0
    ensures TupleProd(RotationX(r, sin, cos), Point(1.0, 0.0, 1.0)) == Point(1.0, -1.0, 0.0)
  {
    RotationXRotates(r, sin, cos, Point(1.0, 0.0, 1.0));
  }

  lemma IndividualScalingTest()
    ensures TupleProd(Scaling(5.0, 5.0, 5.0), Point(1.0, -1.0, 0.0)) == Point(5.0, -5.0, 0.0)
  {
    ScalingScales(5.0, 5.0, 5.0, Point(1.0, -1.0, 0.0));
  }

  lemma IndividualTranslationTest()
    ensures TupleProd(Translation(10.0, 5.0, 7.0), Point(5.0, -5.0, 0.0)) == Point(15.0, 0.0, 7.0)
  {
    TranslationMovesPoint(10.0, 5.0, 7.0, Point(5.0, -5.0, 0.0));
  }

  /** With c = translation(10, 5, 7), b = scaling(5, 5, 5) and a a quarter turn about x,
      the product c × b × a takes (1, 0, 1) to (15, 0, 7). */
  lemma ChainedTransformsTest(r: real, sin: real -> real, cos: real -> real, a: Matrix, b: Matrix, c: Matrix)
    requires sin(r) == 1.0 && cos(r) == 0.0
    requires a == RotationX(r, sin, cos) && b == Scaling(5.0, 5.0, 5.0) && c == Translation(10.0, 5.0, 7.0)
    ensures Multipliable(c, b) && Multipliable(Product(c, b), a) && Is4Wide(Product(Product(c, b), a))
    ensures TupleProd(Product(Product(c, b), a), Point(1.0, 0.0, 1.0)) == Point(15.0, 0.0, 7.0)
  {
    ChainedTransforms(a, b, c, Point(1.0, 0.0, 1.0));
    IndividualRotationTest(r, sin, cos);
    IndividualScalingTest();
    IndividualTranslationTest();
  }
}
