/** Square matrices of `src/matrix.rs`: a dimension and a flat row-major buffer of reals.
    `from_vector` does not check the buffer length, so every accessor states the bound it
    needs; a read past the end (a Rust panic) is excluded by a precondition. */
module Matrices {
  import opened Tuples

  datatype Matrix = Matrix(dim: nat, elems: seq<real>)

  /** Per-element tolerance of `PartialEq for Matrix`. */
  const Tolerance: real := 0.000001

  /** The buffer holds at least the dim × dim elements that `mul` reads. */
  predicate Covers(m: Matrix) { m.dim * m.dim <= |m.elems| }

  /** A matrix exactly of the shape every transform has. */
  predicate Is4x4(m: Matrix) { m.dim == 4 && |m.elems| == 16 }

  /** What `tuple_prod` needs: dim 4 and the sixteen elements it reads. */
  predicate Is4Wide(m: Matrix) { m.dim == 4 && 16 <= |m.elems| }

  function FromVector(d: nat, e: seq<real>): Matrix {
    Matrix(d, e)
  }

  function At(m: Matrix, r: nat, c: nat): real
    requires r * m.dim + c < |m.elems|
  {
    m.elems[r * m.dim + c]
  }

  // ---------------------------------------------------------------- row-major index arithmetic

  lemma MulNonneg(a: int, b: int)
    requires 0 <= a && 0 <= b
    ensures 0 <= a * b
  {}

  /** Euclidean division has one quotient and remainder. */
  lemma DivModUnique(k: int, n: int, q: int, r: int)
    requires 0 < n && 0 <= r < n && k == q * n + r
    ensures k / n == q && k % n == r
  {
    var q', r' := k / n, k % n;
    assert k == q' * n + r';
    assert (q - q') * n == r' - r;
    if q > q' {
      MulNonneg(q - q' - 1, n);
    } else if q < q' {
      MulNonneg(q' - q - 1, n);
    }
  }

  /** Cell (r, c) of an n × n matrix lives at flat index c + r·n, and that index gives (r, c) back. */
  lemma RowMajorIndex(r: nat, c: nat, n: nat)
    requires r < n && c < n
    ensures c + r * n < n * n
    ensures (c + r * n) / n == r && (c + r * n) % n == c
  {
    MulNonneg(n - r - 1, n);
    DivModUnique(c + r * n, n, r, c);
  }

  /** Every flat index below n·n splits into a row and a column below n. */
  lemma IndexSplit(k: nat, n: nat)
    requires k < n * n
    ensures 0 < n && k / n < n && k % n < n && k == k % n + (k / n) * n
  {
    assert 0 < n;
    var q := k / n;
    assert k == q * n + k % n;
    if q >= n {
      MulNonneg(q - n, n);
    }
  }

  /** A row index i < n and column bound j <= n keep the flat index within n·n. */
  lemma FlatBound(i: nat, j: nat, n: nat)
    requires i < n && j <= n
    ensures j + i * n <= n * n
    ensures n + i * n == (i + 1) * n
  {
    MulNonneg(n - i - 1, n);
  }

  // ---------------------------------------------------------------- at and from_vector

  /** `from_vector` keeps the buffer, and `at(r, c)` reads its element r·dim + c. */
  lemma FromVectorAt(d: nat, e: seq<real>, r: nat, c: nat)
    requires r * d + c < |e|
    ensures FromVector(d, e).dim == d
    ensures At(FromVector(d, e), r, c) == e[r * d + c]
  {}

  // ---------------------------------------------------------------- tuple_prod

  /** Row r of a 4-wide matrix dotted with all four slots of t. */
  function RowDot(m: Matrix, r: nat, t: Tuple): real
    requires Is4Wide(m) && r < 4
  {
    At(m, r, 0) * t.x + At(m, r, 1) * t.y + At(m, r, 2) * t.z + At(m, r, 3) * t.w
  }

  function TupleProd(m: Matrix, t: Tuple): Tuple
    requires Is4Wide(m)
  {
    Tuple(RowDot(m, 0, t), RowDot(m, 1, t), RowDot(m, 2, t), RowDot(m, 3, t))
  }

  /** The last row (0, 0, 0, 1) of every affine transform. */
  predicate AffineLastRow(m: Matrix)
    requires Is4Wide(m)
  {
    At(m, 3, 0) == 0.0 && At(m, 3, 1) == 0.0 && At(m, 3, 2) == 0.0 && At(m, 3, 3) == 1.0
  }

  /** A last row of (0, 0, 0, 1) keeps w, so points stay points and vectors stay vectors. */
  lemma TupleProdKeepsW(m: Matrix, t: Tuple)
    requires Is4Wide(m) && AffineLastRow(m)
    ensures TupleProd(m, t).w == t.w
    ensures IsPoint(t) ==> IsPoint(TupleProd(m, t))
    ensures IsVector(t) ==> IsVector(TupleProd(m, t))
  {}

  // ---------------------------------------------------------------- identity

  function Identity(): (m: Matrix)
    ensures Is4x4(m) && AffineLastRow(m)
    ensures forall r: nat, c: nat :: r < 4 && c < 4 ==> At(m, r, c) == if r == c then 1.0 else 0.0
  {
    Matrix(4, [1.0, 0.0, 0.0, 0.0,
               0.0, 1.0, 0.0, 0.0,
               0.0, 0.0, 1.0, 0.0,
               0.0, 0.0, 0.0, 1.0])
  }

  lemma IdentityTupleProd(t: Tuple)
    ensures TupleProd(Identity(), t) == t
  {}

  // ---------------------------------------------------------------- mul

  /** What `mul` demands: equal dims, and buffers it can read dim × dim elements from. */
  predicate Multipliable(a: Matrix, b: Matrix) {
    a.dim == b.dim && Covers(a) && Covers(b)
  }

  /** Σ over x < n of a(r, x) · b(x, c), summed from x = 0 upwards. */
  function DotRange(a: Matrix, b: Matrix, r: nat, c: nat, n: nat): real
    requires Multipliable(a, b) && r < a.dim && c < a.dim && n <= a.dim
  {
    if n == 0 then 0.0
    else
      RowMajorIndex(r, n - 1, a.dim);
      RowMajorIndex(n - 1, c, a.dim);
      DotRange(a, b, r, c, n - 1) + At(a, r, n - 1) * At(b, n - 1, c)
  }

  /** Entry (r, c) of the product: row r of a dotted with column c of b. */
  function Entry(a: Matrix, b: Matrix, r: nat, c: nat): real
    requires Multipliable(a, b) && r < a.dim && c < a.dim
  {
    DotRange(a, b, r, c, a.dim)
  }

  /** The product's value at flat index k, whose row is k / dim and column k % dim. */
  function Cell(a: Matrix, b: Matrix, k: nat): real
    requires Multipliable(a, b) && k < a.dim * a.dim
  {
    IndexSplit(k, a.dim);
    Entry(a, b, k / a.dim, k % a.dim)
  }

  /** The matrix `mul` returns. */
  function Product(a: Matrix, b: Matrix): Matrix
    requires Multipliable(a, b)
  {
    Matrix(a.dim, seq(a.dim * a.dim, k requires 0 <= k < a.dim * a.dim => Cell(a, b, k)))
  }

  /** The product has the same dim and exactly dim × dim elements, entry (r, c) being
      row r of a dotted with column c of b. */
  lemma ProductAt(a: Matrix, b: Matrix, r: nat, c: nat)
    requires Multipliable(a, b) && r < a.dim && c < a.dim
    ensures Product(a, b).dim == a.dim && |Product(a, b).elems| == a.dim * a.dim
    ensures r * a.dim + c < |Product(a, b).elems|
    ensures At(Product(a, b), r, c) == Entry(a, b, r, c)
  {
    RowMajorIndex(r, c, a.dim);
  }

  /** `Mul for Matrix`: fills a fresh buffer cell by cell, row i, column j at index j + i·dim. */
  method Mul(a: Matrix, b: Matrix) returns (p: Matrix)
    requires Multipliable(a, b)
    ensures p == Product(a, b)
  {
    var n := a.dim;
    var v := new real[n * n](_ => 0.0);
    for i := 0 to n
      invariant i * n <= n * n
      invariant forall k :: 0 <= k < i * n ==> v[k] == Cell(a, b, k)
    {
      FlatBound(i, 0, n);
      for j := 0 to n
        invariant j + i * n <= n * n
        invariant forall k :: 0 <= k < j + i * n ==> v[k] == Cell(a, b, k)
      {
        RowMajorIndex(i, j, n);
        FlatBound(i, j + 1, n);
        v[j + i * n] := Entry(a, b, i, j);
      }
      FlatBound(i, n, n);
    }
    p := Matrix(n, v[..]);
  }

  /** Entry (r, c) of a 4 × 4 product written out. */
  lemma Entry4(a: Matrix, b: Matrix, r: nat, c: nat)
    requires Multipliable(a, b) && a.dim == 4 && r < 4 && c < 4
    ensures Entry(a, b, r, c)
         == At(a, r, 0) * At(b, 0, c) + At(a, r, 1) * At(b, 1, c)
          + At(a, r, 2) * At(b, 2, c) + At(a, r, 3) * At(b, 3, c)
  {
    assert DotRange(a, b, r, c, 1) == At(a, r, 0) * At(b, 0, c);
    assert DotRange(a, b, r, c, 2) == DotRange(a, b, r, c, 1) + At(a, r, 1) * At(b, 1, c);
    assert DotRange(a, b, r, c, 3) == DotRange(a, b, r, c, 2) + At(a, r, 2) * At(b, 2, c);
    assert DotRange(a, b, r, c, 4) == DotRange(a, b, r, c, 3) + At(a, r, 3) * At(b, 3, c);
  }

  /** Row r of a dotted with column c of b. */
  function Dot4(a: Matrix, b: Matrix, r: nat, c: nat): real
    requires Is4Wide(a) && Is4Wide(b) && r < 4 && c < 4
  {
    Dot(Row(a, r), Col(b, c))
  }

  /** Row r of m is row r of the product a × b. */
  predicate RowOfProduct(a: Matrix, b: Matrix, m: Matrix, r: nat)
    requires Is4Wide(a) && Is4Wide(b) && Is4x4(m) && r < 4
  {
    Dot4(a, b, r, 0) == At(m, r, 0) && Dot4(a, b, r, 1) == At(m, r, 1)
    && Dot4(a, b, r, 2) == At(m, r, 2) && Dot4(a, b, r, 3) == At(m, r, 3)
  }

  /** A 4 × 4 product equals m once every row of m is the matching row of the product. */
  lemma ProductFromRows(a: Matrix, b: Matrix, m: Matrix)
    requires Multipliable(a, b) && a.dim == 4 && Is4x4(m)
    requires RowOfProduct(a, b, m, 0) && RowOfProduct(a, b, m, 1)
    requires RowOfProduct(a, b, m, 2) && RowOfProduct(a, b, m, 3)
    ensures Product(a, b) == m
  {
    var p := Product(a, b);
    forall k | 0 <= k < 16
      ensures p.elems[k] == m.elems[k]
    {
      IndexSplit(k, 4);
      var r, c := k / 4, k % 4;
      Entry4(a, b, r, c);
      assert Entry(a, b, r, c) == Dot4(a, b, r, c);
      assert At(m, r, c) == m.elems[k];
    }
  }

  /** m × identity = m for every 4 × 4 m. */
  lemma ProductIdentity(m: Matrix)
    requires Is4x4(m)
    ensures Multipliable(m, Identity())
    ensures Product(m, Identity()) == m
  {
    var p := Product(m, Identity());
    forall k | 0 <= k < 16
      ensures p.elems[k] == m.elems[k]
    {
      IndexSplit(k, 4);
      Entry4(m, Identity(), k / 4, k % 4);
    }
  }

  /** Row r of a 4-wide matrix as a tuple. */
  function Row(m: Matrix, r: nat): Tuple
    requires Is4Wide(m) && r < 4
  {
    Tuple(At(m, r, 0), At(m, r, 1), At(m, r, 2), At(m, r, 3))
  }

  /** Column c of a 4-wide matrix as a tuple. */
  function Col(m: Matrix, c: nat): Tuple
    requires Is4Wide(m) && c < 4
  {
    Tuple(At(m, 0, c), At(m, 1, c), At(m, 2, c), At(m, 3, c))
  }

  lemma RowDotIsDot(m: Matrix, r: nat, t: Tuple)
    requires Is4Wide(m) && r < 4
    ensures RowDot(m, r, t) == Dot(Row(m, r), t)
  {}

  /** tuple_prod dots every row of the matrix with the tuple. */
  lemma TupleProdRows(m: Matrix, t: Tuple)
    requires Is4Wide(m)
    ensures TupleProd(m, t) == Tuple(Dot(Row(m, 0), t), Dot(Row(m, 1), t), Dot(Row(m, 2), t), Dot(Row(m, 3), t))
  {
    RowDotIsDot(m, 0, t);
    RowDotIsDot(m, 1, t);
    RowDotIsDot(m, 2, t);
    RowDotIsDot(m, 3, t);
  }

  /** u0·w.x + u1·w.y + u2·w.z + u3·w.w: the tuples u weighted by the slots of w. */
  function Combine(w: Tuple, u0: Tuple, u1: Tuple, u2: Tuple, u3: Tuple): Tuple {
    Add(Add(Add(Scale(u0, w.x), Scale(u1, w.y)), Scale(u2, w.z)), Scale(u3, w.w))
  }

  /** Dotting a weighted sum is weighting the dots. */
  lemma CombineDot(w: Tuple, u0: Tuple, u1: Tuple, u2: Tuple, u3: Tuple, t: Tuple)
    ensures Dot(Combine(w, u0, u1, u2, u3), t) == Dot(w, Tuple(Dot(u0, t), Dot(u1, t), Dot(u2, t), Dot(u3, t)))
  {
    var s0, s1, s2, s3 := Scale(u0, w.x), Scale(u1, w.y), Scale(u2, w.z), Scale(u3, w.w);
    DotAdd(Add(Add(s0, s1), s2), s3, t);
    DotAdd(Add(s0, s1), s2, t);
    DotAdd(s0, s1, t);
    DotScale(u0, w.x, t);
    DotScale(u1, w.y, t);
    DotScale(u2, w.z, t);
    DotScale(u3, w.w, t);
  }

  lemma DotAdd(u: Tuple, v: Tuple, t: Tuple)
    ensures Dot(Add(u, v), t) == Dot(u, t) + Dot(v, t)
  {}

  lemma DotScale(u: Tuple, s: real, t: Tuple)
    ensures Dot(Scale(u, s), t) == s * Dot(u, t)
  {}

  lemma DotAddRight(w: Tuple, u: Tuple, v: Tuple)
    ensures Dot(w, Add(u, v)) == Dot(w, u) + Dot(w, v)
  {}

  lemma DotScaleRight(w: Tuple, u: Tuple, s: real)
    ensures Dot(w, Scale(u, s)) == Dot(w, u) * s
  {}

  /** Entry (r, c) of a 4 × 4 product, written out. */
  lemma ProductEntry(a: Matrix, b: Matrix, r: nat, c: nat)
    requires Multipliable(a, b) && a.dim == 4 && r < 4 && c < 4
    ensures Is4Wide(a) && Is4Wide(b) && Is4x4(Product(a, b))
    ensures At(Product(a, b), r, c) == WeightedColumn(a, b, r, c)
  {
    ProductAt(a, b, r, c);
    Entry4(a, b, r, c);
  }

  /** Column c of the weighted sum of b's rows by row r of a: Σ_x b(x, c)·a(r, x). */
  function WeightedColumn(a: Matrix, b: Matrix, r: nat, c: nat): real
    requires Is4Wide(a) && Is4Wide(b) && r < 4 && c < 4
  {
    At(b, 0, c) * At(a, r, 0) + At(b, 1, c) * At(a, r, 1) + At(b, 2, c) * At(a, r, 2) + At(b, 3, c) * At(a, r, 3)
  }

  /** A row whose entries are those weighted columns is the weighted sum of b's rows. */
  lemma RowFromEntries(a: Matrix, b: Matrix, m: Matrix, r: nat)
    requires Is4Wide(a) && Is4Wide(b) && Is4Wide(m) && r < 4
    requires At(m, r, 0) == WeightedColumn(a, b, r, 0) && At(m, r, 1) == WeightedColumn(a, b, r, 1)
    requires At(m, r, 2) == WeightedColumn(a, b, r, 2) && At(m, r, 3) == WeightedColumn(a, b, r, 3)
    ensures Row(m, r) == Combine(Row(a, r), Row(b, 0), Row(b, 1), Row(b, 2), Row(b, 3))
  {}

  /** Row r of a 4 × 4 product is the rows of b weighted by row r of a. */
  lemma ProductRow(a: Matrix, b: Matrix, r: nat)
    requires Multipliable(a, b) && a.dim == 4 && r < 4
    ensures Is4Wide(a) && Is4Wide(b) && Is4Wide(Product(a, b))
    ensures Row(Product(a, b), r) == Combine(Row(a, r), Row(b, 0), Row(b, 1), Row(b, 2), Row(b, 3))
  {
    ProductEntry(a, b, r, 0);
    ProductEntry(a, b, r, 1);
    ProductEntry(a, b, r, 2);
    ProductEntry(a, b, r, 3);
    RowFromEntries(a, b, Product(a, b), r);
  }

  /** Slot r of (a × b)·t is slot r of a·(b·t). */
  lemma RowDotOfProduct(a: Matrix, b: Matrix, t: Tuple, r: nat)
    requires Multipliable(a, b) && a.dim == 4 && r < 4
    ensures Is4Wide(a) && Is4Wide(b) && Is4Wide(Product(a, b))
    ensures RowDot(Product(a, b), r, t) == RowDot(a, r, TupleProd(b, t))
  {
    ProductRow(a, b, r);
    RowDotIsDot(Product(a, b), r, t);
    CombineDot(Row(a, r), Row(b, 0), Row(b, 1), Row(b, 2), Row(b, 3), t);
    TupleProdRows(b, t);
    RowDotIsDot(a, r, TupleProd(b, t));
  }

  /** Applying a × b to a tuple is applying b and then a. */
  lemma ProductTupleProd(a: Matrix, b: Matrix, t: Tuple)
    requires Multipliable(a, b) && a.dim == 4
    ensures Is4Wide(a) && Is4Wide(b) && Is4Wide(Product(a, b))
    ensures TupleProd(Product(a, b), t) == TupleProd(a, TupleProd(b, t))
  {
    RowDotOfProduct(a, b, t, 0);
    RowDotOfProduct(a, b, t, 1);
    RowDotOfProduct(a, b, t, 2);
    RowDotOfProduct(a, b, t, 3);
  }

  // ---------------------------------------------------------------- tolerant equality

  /** `compare_elems`: every zipped pair, i.e. every index both buffers have, within Tolerance. */
  predicate ElemsClose(a: seq<real>, b: seq<real>) {
    forall k :: 0 <= k < |a| && k < |b| ==> Abs(a[k] - b[k]) < Tolerance
  }

  /** `PartialEq for Matrix`. */
  predicate ApproxEqual(m1: Matrix, m2: Matrix) {
    m1.dim == m2.dim && ElemsClose(m1.elems, m2.elems)
  }

  /** The zip loop of `compare_elems`, returning false at the first pair too far apart. */
  method CompareElems(a: seq<real>, b: seq<real>) returns (same: bool)
    ensures same <==> ElemsClose(a, b)
  {
    var k := 0;
    while k < |a| && k < |b|
      invariant 0 <= k <= |a| && k <= |b|
      invariant forall i :: 0 <= i < k ==> Abs(a[i] - b[i]) < Tolerance
    {
      if Abs(a[k] - b[k]) >= Tolerance {
        return false;
      }
      k := k + 1;
    }
    return true;
  }

  method Equal(m1: Matrix, m2: Matrix) returns (eq: bool)
    ensures eq <==> ApproxEqual(m1, m2)
  {
    if m1.dim != m2.dim {
      return false;
    }
    eq := CompareElems(m1.elems, m2.elems);
  }

  lemma ApproxEqualReflexiveSymmetric(m1: Matrix, m2: Matrix)
    ensures ApproxEqual(m1, m1)
    ensures ApproxEqual(m1, m2) == ApproxEqual(m2, m1)
  {
    assert Abs(0.0) < Tolerance;
  }

  /** Only the common prefix is compared: extra trailing elements never make two matrices differ. */
  lemma ApproxEqualIgnoresTail(d: nat, e: seq<real>, extra: seq<real>)
    ensures ApproxEqual(Matrix(d, e), Matrix(d, e + extra))
  {}

  // ---------------------------------------------------------------- the unit tests' values

  lemma Constructing4x4Test()
    ensures var m := FromVector(4, [1.0, 2.0, 3.0, 4.0, 5.5, 6.5, 7.5, 8.5,
                                    9.0, 10.0, 11.0, 12.0, 13.5, 14.5, 15.5, 16.5]);
      At(m, 0, 0) == 1.0 && At(m, 0, 3) == 4.0 && At(m, 1, 0) == 5.5 && At(m, 1, 2) == 7.5
      && At(m, 2, 2) == 11.0 && At(m, 3, 0) == 13.5 && At(m, 3, 2) == 15.5
  {}

  lemma Constructing2x2Test()
    ensures var m := FromVector(2, [-3.0, 5.0, 1.0, -2.0]);
      At(m, 0, 0) == -3.0 && At(m, 0, 1) == 5.0 && At(m, 1, 0) == 1.0 && At(m, 1, 1) == -2.0
  {}

  lemma Constructing3x3Test()
    ensures var m := FromVector(3, [-3.0, 5.0, 0.0, 1.0, -2.0, -7.0, 0.0, 1.0, 1.0]);
      At(m, 0, 0) == -3.0 && At(m, 1, 1) == -2.0 && At(m, 2, 2) == 1.0
  {}

  lemma IdenticalMatricesTest()
    ensures var v := [1.0, 2.0, 3.0, 4.0, 5.0, 6.0, 7.0, 8.0, 9.0, 8.0, 7.0, 6.0, 5.0, 4.0, 3.0, 2.0];
      ApproxEqual(FromVector(4, v), FromVector(4, v))
  {
    var v := [1.0, 2.0, 3.0, 4.0, 5.0, 6.0, 7.0, 8.0, 9.0, 8.0, 7.0, 6.0, 5.0, 4.0, 3.0, 2.0];
    ApproxEqualReflexiveSymmetric(FromVector(4, v), FromVector(4, v));
  }

  lemma DifferentMatricesTest()
    ensures !ApproxEqual(
      FromVector(4, [1.0, 2.0, 3.0, 4.0, 5.0, 6.0, 7.0, 8.0, 9.0, 8.0, 7.0, 6.0, 5.0, 4.0, 3.0, 2.0]),
      FromVector(4, [2.0, 3.0, 4.0, 5.0, 6.0, 7.0, 8.0, 9.0, 8.0, 7.0, 6.0, 5.0, 4.0, 3.0, 2.0, 1.0]))
  {
    var a := [1.0, 2.0, 3.0, 4.0, 5.0, 6.0, 7.0, 8.0, 9.0, 8.0, 7.0, 6.0, 5.0, 4.0, 3.0, 2.0];
    var b := [2.0, 3.0, 4.0, 5.0, 6.0, 7.0, 8.0, 9.0, 8.0, 7.0, 6.0, 5.0, 4.0, 3.0, 2.0, 1.0];
    assert Abs(a[0] - b[0]) >= Tolerance;
  }

  lemma MatrixTimesTupleTest()
    ensures TupleProd(FromVector(4, [1.0, 2.0, 3.0, 4.0, 2.0, 4.0, 4.0, 2.0,
                                     8.0, 6.0, 4.0, 1.0, 0.0, 0.0, 0.0, 1.0]),
                      Tuple(1.0, 2.0, 3.0, 1.0))
         == Tuple(18.0, 24.0, 33.0, 1.0)
  {}

  // The matrices of `multiplying_two_matrices`.
  function TestA(): Matrix {
    FromVector(4, [1.0, 2.0, 3.0, 4.0, 5.0, 6.0, 7.0, 8.0, 9.0, 8.0, 7.0, 6.0, 5.0, 4.0, 3.0, 2.0])
  }
  function TestB(): Matrix {
    FromVector(4, [-2.0, 1.0, 2.0, 3.0, 3.0, 2.0, 1.0, -1.0, 4.0, 3.0, 6.0, 5.0, 1.0, 2.0, 7.0, 8.0])
  }
  function TestProduct(): Matrix {
    FromVector(4, [20.0, 22.0, 50.0, 48.0, 44.0, 54.0, 114.0, 108.0, 40.0, 58.0, 110.0, 102.0, 16.0, 26.0, 46.0, 42.0])
  }

  lemma TestColumns()
    ensures Is4Wide(TestB())
    ensures Col(TestB(), 0) == Tuple(-2.0, 3.0, 4.0, 1.0) && Col(TestB(), 1) == Tuple(1.0, 2.0, 3.0, 2.0)
    ensures Col(TestB(), 2) == Tuple(2.0, 1.0, 6.0, 7.0) && Col(TestB(), 3) == Tuple(3.0, -1.0, 5.0, 8.0)
  {}

  lemma TestRow(r: nat, row: Tuple, p0: real, p1: real, p2: real, p3: real)
    requires r < 4 && Row(TestA(), r) == row
    requires Row(TestProduct(), r) == Tuple(p0, p1, p2, p3)
    requires Dot(row, Tuple(-2.0, 3.0, 4.0, 1.0)) == p0 && Dot(row, Tuple(1.0, 2.0, 3.0, 2.0)) == p1
    requires Dot(row, Tuple(2.0, 1.0, 6.0, 7.0)) == p2 && Dot(row, Tuple(3.0, -1.0, 5.0, 8.0)) == p3
    ensures RowOfProduct(TestA(), TestB(), TestProduct(), r)
  {
    TestColumns();
  }

  /** The product of `multiplying_two_matrices`, exact over the reals. */
  lemma MultiplyingTwoMatricesTest()
    ensures Product(TestA(), TestB()) == TestProduct()
  {
    TestRow(0, Tuple(1.0, 2.0, 3.0, 4.0), 20.0, 22.0, 50.0, 48.0);
    TestRow(1, Tuple(5.0, 6.0, 7.0, 8.0), 44.0, 54.0, 114.0, 108.0);
    TestRow(2, Tuple(9.0, 8.0, 7.0, 6.0), 40.0, 58.0, 110.0, 102.0);
    TestRow(3, Tuple(5.0, 4.0, 3.0, 2.0), 16.0, 26.0, 46.0, 42.0);
    ProductFromRows(TestA(), TestB(), TestProduct());
  }

  // The matrix of `multiplying_matrix_by_identity_matrix`.
  function IdentityTestMatrix(): Matrix {
    FromVector(4, [0.0, 1.0, 2.0, 4.0, 1.0, 2.0, 4.0, 8.0, 2.0, 4.0, 8.0, 16.0, 4.0, 8.0, 16.0, 32.0])
  }

  /** `multiplying_matrix_by_identity_matrix`: the product compares equal to the matrix. */
  lemma MultiplyingMatrixByIdentityTest()
    ensures Multipliable(IdentityTestMatrix(), Identity())
    ensures ApproxEqual(IdentityTestMatrix(), Product(IdentityTestMatrix(), Identity()))
  {
    ProductIdentity(IdentityTestMatrix());
    ApproxEqualReflexiveSymmetric(IdentityTestMatrix(), IdentityTestMatrix());
  }
}
