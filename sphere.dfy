/** The unit sphere of `src/sphere.rs`: ray intersection by the quadratic formula in object
    space, and the surface normal. `Matrix::inverse` and `transpose` are not part of this model,
    so a sphere carries the inverse of its transform and the transpose of that inverse as
    fields, and Valid ties them to the transform. */
module Spheres {
  import opened Tuples
  import opened Matrices
  import opened Transformations
  import opened Rays
  import opened Intersections
  import opened Materials

  datatype Sphere = Sphere(transform: Matrix, inverse: Matrix, inverseTransposed: Matrix, material: Material)

  /** The centre of every sphere in object space, the point (0, 0, 0), written as its tuple. */
  const Origin: Tuple := Tuple(0.0, 0.0, 0.0, 1.0)

  /** b is the transpose of a. */
  predicate Transposed(a: Matrix, b: Matrix)
    requires Is4Wide(a) && Is4Wide(b)
  {
    forall r: nat, c: nat :: r < 4 && c < 4 ==> At(b, r, c) == At(a, c, r)
  }

  /** A 4 × 4 buffer that lists a's columns one after another holds a's transpose. */
  lemma TransposedByColumns(a: Matrix, b: Matrix)
    requires Is4x4(a) && Is4x4(b)
    requires b.elems == [a.elems[0], a.elems[4], a.elems[8], a.elems[12],
                         a.elems[1], a.elems[5], a.elems[9], a.elems[13],
                         a.elems[2], a.elems[6], a.elems[10], a.elems[14],
                         a.elems[3], a.elems[7], a.elems[11], a.elems[15]]
    ensures Transposed(a, b)
  {
    forall r: nat, c: nat | r < 4 && c < 4
      ensures At(b, r, c) == At(a, c, r)
    {
      assert r * 4 + c == [0, 4, 8, 12][r] + c && c * 4 + r == [0, 4, 8, 12][c] + r;
    }
  }

  /** The stored inverse undoes the transform, and the stored transpose is its transpose. */
  predicate Valid(s: Sphere) {
    Is4x4(s.transform) && Is4x4(s.inverse) && Is4x4(s.inverseTransposed)
    && Product(s.transform, s.inverse) == Identity()
    && Transposed(s.inverse, s.inverseTransposed)
  }

  /** `Sphere::new`: the identity transform, whose inverse and transpose are the identity,
      and the default material. */
  function NewSphere(): (s: Sphere)
    ensures s.transform == Identity() && s.material == DefaultMaterial()
    ensures s.inverse == Identity() && s.inverseTransposed == Identity()
  {
    Sphere(Identity(), Identity(), Identity(), DefaultMaterial())
  }

  /** The new sphere satisfies the invariant: the identity is its own inverse and transpose. */
  lemma NewSphereValid()
    ensures Valid(NewSphere())
  {
    ProductIdentity(Identity());
  }

  /** Assigning `s.transform`, together with the inverse and transpose the source would derive
      from it; the material is kept. */
  function WithTransform(s: Sphere, transform: Matrix, inverse: Matrix, inverseTransposed: Matrix): (r: Sphere)
    requires Is4x4(transform) && Is4x4(inverse) && Is4x4(inverseTransposed)
    requires Product(transform, inverse) == Identity() && Transposed(inverse, inverseTransposed)
    ensures Valid(r) && r.transform == transform && r.material == s.material
  {
    Sphere(transform, inverse, inverseTransposed, s.material)
  }

  /** The transpose of translation(−x, −y, −z): the offsets move from the last column to the
      last row. */
  function TranslationInverseTransposed(x: real, y: real, z: real): (m: Matrix)
    ensures Is4x4(m) && Transposed(Translation(-x, -y, -z), m)
  {
    TransposedByColumns(Translation(-x, -y, -z), FromVector(4, [1.0, 0.0, 0.0, 0.0,
                   0.0, 1.0, 0.0, 0.0,
                   0.0, 0.0, 1.0, 0.0,
                   -x, -y, -z, 1.0]));
    FromVector(4, [1.0, 0.0, 0.0, 0.0,
                   0.0, 1.0, 0.0, 0.0,
                   0.0, 0.0, 1.0, 0.0,
                   -x, -y, -z, 1.0])
  }

  /** A scaling is diagonal, so it is its own transpose. */
  lemma ScalingTransposed(x: real, y: real, z: real)
    ensures Transposed(Scaling(x, y, z), Scaling(x, y, z))
  {
    TransposedByColumns(Scaling(x, y, z), Scaling(x, y, z));
  }

  /** `s.transform = translation(x, y, z)`, with translation(−x, −y, −z) as the inverse. */
  function Translated(s: Sphere, x: real, y: real, z: real): (r: Sphere)
    ensures Valid(r) && r.transform == Translation(x, y, z) && r.material == s.material
    ensures r.inverse == Translation(-x, -y, -z)
  {
    TranslationInverseProduct(x, y, z);
    WithTransform(s, Translation(x, y, z), Translation(-x, -y, -z), TranslationInverseTransposed(x, y, z))
  }

  /** `s.transform = scaling(x, y, z)` for non-zero factors, with the reciprocal scaling as
      the inverse. */
  function Scaled(s: Sphere, x: real, y: real, z: real): (r: Sphere)
    requires x != 0.0 && y != 0.0 && z != 0.0
    ensures Valid(r) && r.transform == Scaling(x, y, z) && r.material == s.material
    ensures r.inverse == Scaling(1.0 / x, 1.0 / y, 1.0 / z)
  {
    ScalingInverseProduct(x, y, z);
    ScalingTransposed(1.0 / x, 1.0 / y, 1.0 / z);
    WithTransform(s, Scaling(x, y, z), Scaling(1.0 / x, 1.0 / y, 1.0 / z), Scaling(1.0 / x, 1.0 / y, 1.0 / z))
  }

  /** Assigning `s.material`; the transform and what is derived from it are kept. */
  function WithMaterial(s: Sphere, m: Material): (r: Sphere)
    ensures r.material == m && r.transform == s.transform
    ensures r.inverse == s.inverse && r.inverseTransposed == s.inverseTransposed
    ensures Valid(s) ==> Valid(r)
  {
    s.(material := m)
  }

  // ---------------------------------------------------------------- intersect

  /** The ray moved into object space by the inverse transform. */
  function ObjectRay(s: Sphere, ray: Ray): Ray
    requires Is4Wide(s.inverse)
  {
    Transform(ray, s.inverse)
  }

  /** The vector from the sphere's centre to the ray's origin. */
  function SphereToRay(r: Ray): Tuple {
    Sub(r.origin, Origin)
  }

  /** The coefficients a, b, c of a·t² + b·t + c = 0, whose roots are where the ray meets
      the unit sphere. */
  function QuadA(r: Ray): real {
    Dot(r.direction, r.direction)
  }

  function QuadB(r: Ray): real {
    2.0 * Dot(r.direction, SphereToRay(r))
  }

  function QuadC(r: Ray): real {
    Dot(SphereToRay(r), SphereToRay(r)) - 1.0
  }

  function Discriminant(r: Ray): real {
    QuadB(r) * QuadB(r) - 4.0 * QuadA(r) * QuadC(r)
  }

  /** The point p is at distance 1 from the centre (for a point, the w slot of p − Origin is 0,
      so this is x² + y² + z² = 1). */
  predicate OnUnitSphere(p: Tuple) {
    Dot(Sub(p, Origin), Sub(p, Origin)) == 1.0
  }

  /** `intersect`: no records when the discriminant is negative, else the two roots
      (−b − √d) / 2a and (−b + √d) / 2a in that order, a tangent giving the same t twice.
      A zero a (a zero direction in object space) would divide by zero and is excluded. */
  function Intersect(s: Sphere, ray: Ray, sqrt: real -> real): (xs: seq<Intersection<Sphere>>)
    requires Is4Wide(s.inverse) && QuadA(ObjectRay(s, ray)) != 0.0
    ensures |xs| == 0 || |xs| == 2
    ensures |xs| == 0 <==> Discriminant(ObjectRay(s, ray)) < 0.0
    ensures forall i :: 0 <= i < |xs| ==> xs[i].obj == s
  {
    var r := ObjectRay(s, ray);
    var discriminant := Discriminant(r);
    if discriminant < 0.0 then []
    else [NewIntersection(Root(r, -sqrt(discriminant)), s), NewIntersection(Root(r, sqrt(discriminant)), s)]
  }

  /** (−b + sq) / 2a: with sq = ±√d, the two roots of the quadratic. */
  function Root(r: Ray, sq: real): real
    requires QuadA(r) != 0.0
  {
    (-QuadB(r) + sq) / (2.0 * QuadA(r))
  }

  /** The squared distance from the centre, less one, is the quadratic in t; so the ray is
      on the unit sphere exactly where the quadratic is zero. */
  lemma QuadraticValue(r: Ray, t: real)
    ensures Dot(Sub(Position(r, t), Origin), Sub(Position(r, t), Origin)) - 1.0
         == QuadA(r) * t * t + QuadB(r) * t + QuadC(r)
    ensures OnUnitSphere(Position(r, t)) <==> QuadA(r) * t * t + QuadB(r) * t + QuadC(r) == 0.0
  {
    var u, d := SphereToRay(r), r.direction;
    assert Sub(Position(r, t), Origin) == Add(u, Scale(d, t));
    DotAdd(u, Scale(d, t), Add(u, Scale(d, t)));
    DotAddRight(u, u, Scale(d, t));
    DotAddRight(Scale(d, t), u, Scale(d, t));
    DotScale(d, t, u);
    DotScaleRight(u, d, t);
    DotScale(d, t, Scale(d, t));
    DotScaleRight(d, d, t);
    DotSymmetric(u, d);
  }

  /** With a negative discriminant the quadratic has no real root. */
  lemma NoRealRoot(a: real, b: real, c: real, t: real)
    requires b * b - 4.0 * a * c < 0.0
    ensures a * t * t + b * t + c != 0.0
  {
    var u, q := 2.0 * a * t + b, a * t * t + b * t + c;
    assert 0.0 <= u * u;
    assert 4.0 * a * q == u * u - (b * b - 4.0 * a * c);
  }

  /** With sq² = b² − 4ac the roots are exactly (−b − sq) / 2a and (−b + sq) / 2a. */
  lemma QuadraticRoots(a: real, b: real, c: real, sq: real, t: real)
    requires a != 0.0 && sq * sq == b * b - 4.0 * a * c
    ensures a * t * t + b * t + c == 0.0 <==> t == (-b - sq) / (2.0 * a) || t == (-b + sq) / (2.0 * a)
  {
    var u := 2.0 * a * t + b;
    assert 4.0 * a * (a * t * t + b * t + c) == (u - sq) * (u + sq);
    assert t == (-b - sq) / (2.0 * a) <==> u + sq == 0.0;
    assert t == (-b + sq) / (2.0 * a) <==> u - sq == 0.0;
  }

  /** A ray whose quadratic has a negative discriminant never reaches the unit sphere. */
  lemma NoCrossing(r: Ray, t: real)
    requires Discriminant(r) < 0.0
    ensures !OnUnitSphere(Position(r, t))
  {
    QuadraticValue(r, t);
    NoRealRoot(QuadA(r), QuadB(r), QuadC(r), t);
  }

  /** With sq² equal to the discriminant, the ray is on the unit sphere exactly at the two roots. */
  lemma CrossingsAreRoots(r: Ray, sq: real, t: real)
    requires QuadA(r) != 0.0 && sq * sq == Discriminant(r)
    ensures OnUnitSphere(Position(r, t)) <==> t == Root(r, -sq) || t == Root(r, sq)
  {
    QuadraticValue(r, t);
    QuadraticRoots(QuadA(r), QuadB(r), QuadC(r), sq, t);
  }

  /** The records are exactly the crossings of the unit sphere: t is one of the returned
      values if and only if the object-space ray is on the unit sphere at t. */
  lemma IntersectFindsExactlyTheCrossings(s: Sphere, ray: Ray, sqrt: real -> real, t: real)
    requires Is4Wide(s.inverse) && QuadA(ObjectRay(s, ray)) != 0.0
    requires var d := Discriminant(ObjectRay(s, ray)); 0.0 <= d ==> sqrt(d) * sqrt(d) == d
    ensures var xs := Intersect(s, ray, sqrt);
      OnUnitSphere(Position(ObjectRay(s, ray), t)) <==> |xs| == 2 && (t == xs[0].t || t == xs[1].t)
  {
    var r := ObjectRay(s, ray);
    if Discriminant(r) < 0.0 {
      NoCrossing(r, t);
    } else {
      var sq := sqrt(Discriminant(r));
      assert sq * sq == Discriminant(r);
      CrossingsAreRoots(r, sq, t);
    }
  }

  /** With a non-negative root of the discriminant the first record's t is the smaller. */
  lemma IntersectOrdered(s: Sphere, ray: Ray, sqrt: real -> real)
    requires Is4Wide(s.inverse) && QuadA(ObjectRay(s, ray)) != 0.0
    requires var d := Discriminant(ObjectRay(s, ray)); 0.0 <= d ==> 0.0 <= sqrt(d)
    ensures var xs := Intersect(s, ray, sqrt); |xs| == 2 ==> xs[0].t <= xs[1].t
  {
    var r := ObjectRay(s, ray);
    var a, b := QuadA(r), QuadB(r);
    assert 0.0 < a;
    if 0.0 <= Discriminant(r) {
      var sq := sqrt(Discriminant(r));
      DivideOrdered(-b - sq, -b + sq, 2.0 * a);
      assert Root(r, -sq) == (-b - sq) / (2.0 * a);
    }
  }

  lemma DivideOrdered(x: real, y: real, k: real)
    requires x <= y && 0.0 < k
    ensures x / k <= y / k
  {
    assert y / k - x / k == (y - x) / k;
  }

  /** Under a valid sphere the world-space ray at t is the transform of the object-space ray
      at t, so every record's t names a world point that the transform maps from the unit sphere. */
  lemma WorldPointOfHit(s: Sphere, ray: Ray, t: real)
    requires Valid(s)
    ensures Position(ray, t) == TupleProd(s.transform, Position(ObjectRay(s, ray), t))
  {
    TransformPosition(ray, s.inverse, t);
    ProductTupleProd(s.transform, s.inverse, Position(ray, t));
    IdentityTupleProd(Position(ray, t));
  }

  // ---------------------------------------------------------------- normal_at

  /** The transformed normal with its w slot rebuilt as 0 (`Tuple::vector` on x, y, z). */
  function WorldNormal(s: Sphere, worldPoint: Tuple): Tuple
    requires Is4Wide(s.inverse) && Is4Wide(s.inverseTransposed)
  {
    var objectPoint := TupleProd(s.inverse, worldPoint);
    var objectNormal := Sub(objectPoint, Origin);
    var n := TupleProd(s.inverseTransposed, objectNormal);
    Vector(n.x, n.y, n.z)
  }

  /** `normal_at`: always a vector, whatever the transposed inverse does to w. A zero normal
      (a NaN after normalising) is excluded. */
  function NormalAt(s: Sphere, worldPoint: Tuple, sqrt: real -> real): (n: Tuple)
    requires Is4Wide(s.inverse) && Is4Wide(s.inverseTransposed)
    requires Magnitude(WorldNormal(s, worldPoint), sqrt) != 0.0
    ensures IsVector(n)
  {
    Normalize(WorldNormal(s, worldPoint), sqrt)
  }

  /** The normal has length 1. */
  lemma NormalIsUnit(s: Sphere, worldPoint: Tuple, sqrt: real -> real)
    requires Is4Wide(s.inverse) && Is4Wide(s.inverseTransposed)
    requires IsSqrt(sqrt) && Magnitude(WorldNormal(s, worldPoint), sqrt) != 0.0
    ensures Magnitude(NormalAt(s, worldPoint, sqrt), sqrt) == 1.0
  {
    NormalizedMagnitude(WorldNormal(s, worldPoint), sqrt);
  }

  /** On an untransformed sphere the normal at p is the direction from the centre to p. */
  lemma NormalOfIdentitySphere(s: Sphere, p: Tuple)
    requires s.inverse == Identity() && s.inverseTransposed == Identity()
    ensures WorldNormal(s, p) == Vector(p.x, p.y, p.z)
  {
    IdentityTupleProd(p);
    IdentityTupleProd(Sub(p, Origin));
  }

  /** On an untransformed sphere the normal at a point of the surface is p − Origin itself. */
  lemma NormalOnUnitSphere(s: Sphere, p: Tuple, sqrt: real -> real)
    requires s.inverse == Identity() && s.inverseTransposed == Identity()
    requires IsPoint(p) && OnUnitSphere(p) && sqrt(1.0) == 1.0
    ensures Magnitude(WorldNormal(s, p), sqrt) == 1.0
    ensures NormalAt(s, p, sqrt) == Vector(p.x, p.y, p.z)
  {
    NormalOfIdentitySphere(s, p);
    assert SquaredLength(WorldNormal(s, p)) == 1.0;
  }

  /** On an untransformed sphere the normal at a point of the surface is already
      normalised: normalising it again changes nothing. */
  lemma NormalOnUnitSphereIsNormalized(s: Sphere, p: Tuple, sqrt: real -> real)
    requires s.inverse == Identity() && s.inverseTransposed == Identity()
    requires IsPoint(p) && OnUnitSphere(p) && sqrt(1.0) == 1.0
    ensures Magnitude(WorldNormal(s, p), sqrt) == 1.0
    ensures Magnitude(NormalAt(s, p, sqrt), sqrt) == 1.0
    ensures Normalize(NormalAt(s, p, sqrt), sqrt) == NormalAt(s, p, sqrt)
  {
    NormalOnUnitSphere(s, p, sqrt);
    NormalizeUnit(NormalAt(s, p, sqrt), sqrt);
  }

  /** On a sphere translated by (x, y, z) the normal at p is the normalised p − (x, y, z):
      the transposed inverse puts −(x, y, z)·n into w, which the rebuilt vector drops. */
  lemma NormalOfTranslatedSphere(s: Sphere, x: real, y: real, z: real, p: Tuple)
    requires Is4x4(s.inverseTransposed) && s.inverse == Translation(-x, -y, -z)
    requires Transposed(s.inverse, s.inverseTransposed) && IsPoint(p)
    ensures WorldNormal(s, p) == Vector(p.x - x, p.y - y, p.z - z)
  {
    TranslationMovesPoint(-x, -y, -z, p);
    var v := Vector(p.x - x, p.y - y, p.z - z);
    assert Sub(TupleProd(s.inverse, p), Origin) == v;
    TranslationRowsCols(-x, -y, -z);
    TransposedRows(s.inverse, s.inverseTransposed);
    TupleProdRows(s.inverseTransposed, v);
  }

  /** The rows of a transpose are the columns of the original. */
  lemma TransposedRows(a: Matrix, b: Matrix)
    requires Is4Wide(a) && Is4Wide(b) && Transposed(a, b)
    ensures Row(b, 0) == Col(a, 0) && Row(b, 1) == Col(a, 1)
    ensures Row(b, 2) == Col(a, 2) && Row(b, 3) == Col(a, 3)
  {
    assert At(b, 0, 0) == At(a, 0, 0) && At(b, 0, 1) == At(a, 1, 0) && At(b, 0, 2) == At(a, 2, 0) && At(b, 0, 3) == At(a, 3, 0);
    assert At(b, 1, 0) == At(a, 0, 1) && At(b, 1, 1) == At(a, 1, 1) && At(b, 1, 2) == At(a, 2, 1) && At(b, 1, 3) == At(a, 3, 1);
    assert At(b, 2, 0) == At(a, 0, 2) && At(b, 2, 1) == At(a, 1, 2) && At(b, 2, 2) == At(a, 2, 2) && At(b, 2, 3) == At(a, 3, 2);
    assert At(b, 3, 0) == At(a, 0, 3) && At(b, 3, 1) == At(a, 1, 3) && At(b, 3, 2) == At(a, 2, 3) && At(b, 3, 3) == At(a, 3, 3);
  }

  // ---------------------------------------------------------------- the unit tests' values

  /** The untransformed sphere leaves the ray as it is. */
  lemma ObjectRayOfIdentity(s: Sphere, ray: Ray)
    requires s.inverse == Identity()
    ensures ObjectRay(s, ray) == ray
  {
    IdentityTupleProd(ray.origin);
    IdentityTupleProd(ray.direction);
  }

  /** a·t² + b·t + c = 0 has a ≠ 0, the discriminant d ≥ 0 with square root sq, and the
      roots t1 = (−b − sq) / 2a and t2 = (−b + sq) / 2a. */
  predicate QuadraticSolvedBy(a: real, b: real, c: real, d: real, sq: real, t1: real, t2: real) {
    a != 0.0 && b * b - 4.0 * a * c == d && 0.0 <= d && (-b - sq) / (2.0 * a) == t1 && (-b + sq) / (2.0 * a) == t2
  }

  /** a·t² + b·t + c = 0 has a ≠ 0 and a negative discriminant. */
  predicate QuadraticUnsolvable(a: real, b: real, c: real) {
    a != 0.0 && b * b - 4.0 * a * c < 0.0
  }

  /** With the coefficients of the object-space ray known, the records carry the roots. */
  lemma IntersectAtRoots(s: Sphere, ray: Ray, sqrt: real -> real, a: real, b: real, c: real, d: real, sq: real, t1: real, t2: real)
    requires Is4Wide(s.inverse)
    requires QuadA(ObjectRay(s, ray)) == a && QuadB(ObjectRay(s, ray)) == b && QuadC(ObjectRay(s, ray)) == c
    requires QuadraticSolvedBy(a, b, c, d, sq, t1, t2) && sqrt(d) == sq
    ensures QuadA(ObjectRay(s, ray)) != 0.0
    ensures Intersect(s, ray, sqrt) == [NewIntersection(t1, s), NewIntersection(t2, s)]
  {
    assert Discriminant(ObjectRay(s, ray)) == d;
  }

  /** With the coefficients of the object-space ray known and no real root, there are no records. */
  lemma IntersectMisses(s: Sphere, ray: Ray, sqrt: real -> real, a: real, b: real, c: real)
    requires Is4Wide(s.inverse)
    requires QuadA(ObjectRay(s, ray)) == a && QuadB(ObjectRay(s, ray)) == b && QuadC(ObjectRay(s, ray)) == c
    requires QuadraticUnsolvable(a, b, c)
    ensures QuadA(ObjectRay(s, ray)) != 0.0
    ensures Intersect(s, ray, sqrt) == []
  {
    assert Discriminant(ObjectRay(s, ray)) < 0.0;
  }

  /** Every ray the unit tests cast runs parallel to the z axis: from (ox, oy, oz) along
      (0, 0, dz), a = dz², b = 2·dz·oz and c = ox² + oy² + oz² − 1. */
  lemma AxialRayQuadratic(r: Ray, ox: real, oy: real, oz: real, dz: real)
    requires r == Ray(Tuple(ox, oy, oz, 1.0), Tuple(0.0, 0.0, dz, 0.0))
    ensures QuadA(r) == dz * dz && QuadB(r) == 2.0 * dz * oz && QuadC(r) == ox * ox + oy * oy + oz * oz - 1.0
  {}

  predicate AxialRoots(ox: real, oy: real, oz: real, dz: real, d: real, sq: real, t1: real, t2: real) {
    QuadraticSolvedBy(dz * dz, 2.0 * dz * oz, ox * ox + oy * oy + oz * oz - 1.0, d, sq, t1, t2)
  }

  predicate AxialMiss(ox: real, oy: real, oz: real, dz: real) {
    QuadraticUnsolvable(dz * dz, 2.0 * dz * oz, ox * ox + oy * oy + oz * oz - 1.0)
  }

  /** An object-space ray along z whose quadratic has the roots t1, t2 hits at t1 and t2. */
  lemma AxialIntersect(s: Sphere, ray: Ray, sqrt: real -> real, ox: real, oy: real, oz: real, dz: real, d: real, sq: real, t1: real, t2: real)
    requires Is4Wide(s.inverse) && ObjectRay(s, ray) == Ray(Tuple(ox, oy, oz, 1.0), Tuple(0.0, 0.0, dz, 0.0))
    requires AxialRoots(ox, oy, oz, dz, d, sq, t1, t2) && sqrt(d) == sq
    ensures QuadA(ObjectRay(s, ray)) != 0.0
    ensures Intersect(s, ray, sqrt) == [NewIntersection(t1, s), NewIntersection(t2, s)]
  {
    AxialRayQuadratic(ObjectRay(s, ray), ox, oy, oz, dz);
    IntersectAtRoots(s, ray, sqrt, dz * dz, 2.0 * dz * oz, ox * ox + oy * oy + oz * oz - 1.0, d, sq, t1, t2);
  }

  /** An object-space ray along z whose quadratic has no real root misses. */
  lemma AxialIntersectMisses(s: Sphere, ray: Ray, sqrt: real -> real, ox: real, oy: real, oz: real, dz: real)
    requires Is4Wide(s.inverse) && ObjectRay(s, ray) == Ray(Tuple(ox, oy, oz, 1.0), Tuple(0.0, 0.0, dz, 0.0))
    requires AxialMiss(ox, oy, oz, dz)
    ensures QuadA(ObjectRay(s, ray)) != 0.0
    ensures Intersect(s, ray, sqrt) == []
  {
    AxialRayQuadratic(ObjectRay(s, ray), ox, oy, oz, dz);
    IntersectMisses(s, ray, sqrt, dz * dz, 2.0 * dz * oz, ox * ox + oy * oy + oz * oz - 1.0);
  }

  /** The quadratics of the test rays, solved on literals. */
  lemma CentreFromFrontRoots()
    ensures AxialRoots(0.0, 0.0, -5.0, 1.0, 4.0, 2.0, 4.0, 6.0)
  {}

  lemma TangentRoots()
    ensures AxialRoots(0.0, 1.0, -5.0, 1.0, 0.0, 0.0, 5.0, 5.0)
  {}

  lemma AboveMiss()
    ensures AxialMiss(0.0, 2.0, -5.0, 1.0)
  {}

  lemma InsideRoots()
    ensures AxialRoots(0.0, 0.0, 0.0, 1.0, 4.0, 2.0, -1.0, 1.0)
  {}

  lemma BehindRoots()
    ensures AxialRoots(0.0, 0.0, 5.0, 1.0, 4.0, 2.0, -6.0, -4.0)
  {}

  lemma HalvedRoots()
    ensures AxialRoots(0.0, 0.0, -2.5, 0.5, 1.0, 1.0, 3.0, 7.0)
  {}

  lemma RayIntersectsSphereAtTwoPointsTest(sqrt: real -> real, s: Sphere, ray: Ray)
    requires sqrt(4.0) == 2.0 && s == NewSphere()
    requires ray == Ray(Point(0.0, 0.0, -5.0), Vector(0.0, 0.0, 1.0))
    ensures QuadA(ObjectRay(s, ray)) != 0.0
    ensures Intersect(s, ray, sqrt) == [NewIntersection(4.0, s), NewIntersection(6.0, s)]
  {
    LiteralSlots(0.0, 0.0, -5.0);
    LiteralSlots(0.0, 0.0, 1.0);
    ObjectRayOfIdentity(s, ray);
    CentreFromFrontRoots();
    AxialIntersect(s, ray, sqrt, 0.0, 0.0, -5.0, 1.0, 4.0, 2.0, 4.0, 6.0);
  }

  lemma RayIntersectsSphereAtTangentTest(sqrt: real -> real, s: Sphere, ray: Ray)
    requires sqrt(0.0) == 0.0 && s == NewSphere()
    requires ray == Ray(Point(0.0, 1.0, -5.0), Vector(0.0, 0.0, 1.0))
    ensures QuadA(ObjectRay(s, ray)) != 0.0
    ensures Intersect(s, ray, sqrt) == [NewIntersection(5.0, s), NewIntersection(5.0, s)]
  {
    LiteralSlots(0.0, 1.0, -5.0);
    LiteralSlots(0.0, 0.0, 1.0);
    ObjectRayOfIdentity(s, ray);
    TangentRoots();
    AxialIntersect(s, ray, sqrt, 0.0, 1.0, -5.0, 1.0, 0.0, 0.0, 5.0, 5.0);
  }

  lemma RayMissesSphereTest(sqrt: real -> real, s: Sphere, ray: Ray)
    requires s == NewSphere()
    requires ray == Ray(Point(0.0, 2.0, -5.0), Vector(0.0, 0.0, 1.0))
    ensures QuadA(ObjectRay(s, ray)) != 0.0
    ensures Intersect(s, ray, sqrt) == []
  {
    LiteralSlots(0.0, 2.0, -5.0);
    LiteralSlots(0.0, 0.0, 1.0);
    ObjectRayOfIdentity(s, ray);
    AboveMiss();
    AxialIntersectMisses(s, ray, sqrt, 0.0, 2.0, -5.0, 1.0);
  }

  lemma RayOriginatesInsideSphereTest(sqrt: real -> real, s: Sphere, ray: Ray)
    requires sqrt(4.0) == 2.0 && s == NewSphere()
    requires ray == Ray(Point(0.0, 0.0, 0.0), Vector(0.0, 0.0, 1.0))
    ensures QuadA(ObjectRay(s, ray)) != 0.0
    ensures Intersect(s, ray, sqrt) == [NewIntersection(-1.0, s), NewIntersection(1.0, s)]
  {
    LiteralSlots(0.0, 0.0, 0.0);
    LiteralSlots(0.0, 0.0, 1.0);
    ObjectRayOfIdentity(s, ray);
    InsideRoots();
    AxialIntersect(s, ray, sqrt, 0.0, 0.0, 0.0, 1.0, 4.0, 2.0, -1.0, 1.0);
  }

  lemma SphereIsBehindRayTest(sqrt: real -> real, s: Sphere, ray: Ray)
    requires sqrt(4.0) == 2.0 && s == NewSphere()
    requires ray == Ray(Point(0.0, 0.0, 5.0), Vector(0.0, 0.0, 1.0))
    ensures QuadA(ObjectRay(s, ray)) != 0.0
    ensures Intersect(s, ray, sqrt) == [NewIntersection(-6.0, s), NewIntersection(-4.0, s)]
  {
    LiteralSlots(0.0, 0.0, 5.0);
    LiteralSlots(0.0, 0.0, 1.0);
    ObjectRayOfIdentity(s, ray);
    BehindRoots();
    AxialIntersect(s, ray, sqrt, 0.0, 0.0, 5.0, 1.0, 4.0, 2.0, -6.0, -4.0);
  }

  /** Scaling by 2 halves the ray in object space. */
  lemma HalvedObjectRay(s: Sphere, ray: Ray)
    requires s == Scaled(NewSphere(), 2.0, 2.0, 2.0)
    requires ray == Ray(Point(0.0, 0.0, -5.0), Vector(0.0, 0.0, 1.0))
    ensures Is4Wide(s.inverse)
    ensures ObjectRay(s, ray) == Ray(Tuple(0.0, 0.0, -2.5, 1.0), Tuple(0.0, 0.0, 0.5, 0.0))
  {
    LiteralSlots(0.0, 0.0, -5.0);
    LiteralSlots(0.0, 0.0, 1.0);
    ScaledRay(ray, 1.0 / 2.0, 1.0 / 2.0, 1.0 / 2.0);
  }

  lemma IntersectingScaledSphereTest(sqrt: real -> real, s: Sphere, ray: Ray)
    requires sqrt(1.0) == 1.0 && s == Scaled(NewSphere(), 2.0, 2.0, 2.0)
    requires ray == Ray(Point(0.0, 0.0, -5.0), Vector(0.0, 0.0, 1.0))
    ensures QuadA(ObjectRay(s, ray)) != 0.0
    ensures Intersect(s, ray, sqrt) == [NewIntersection(3.0, s), NewIntersection(7.0, s)]
  {
    HalvedObjectRay(s, ray);
    HalvedRoots();
    AxialIntersect(s, ray, sqrt, 0.0, 0.0, -2.5, 0.5, 1.0, 1.0, 3.0, 7.0);
  }

  /** A sphere whose inverse is translation(−x, −y, −z) sees a ray's origin moved by
      (−x, −y, −z). */
  lemma TranslatedObjectRay(s: Sphere, ray: Ray, x: real, y: real, z: real)
    requires s.inverse == Translation(-x, -y, -z) && IsPoint(ray.origin) && IsVector(ray.direction)
    ensures Is4Wide(s.inverse)
    ensures ObjectRay(s, ray) == Ray(Tuple(ray.origin.x - x, ray.origin.y - y, ray.origin.z - z, 1.0), ray.direction)
  {
    TranslatedRay(ray, -x, -y, -z);
    LiteralSlots(ray.origin.x + -x, ray.origin.y + -y, ray.origin.z + -z);
  }

  lemma TranslatedAxialMisses(s: Sphere, ray: Ray, sqrt: real -> real,
                              ox: real, oy: real, oz: real, dz: real, x: real, y: real, z: real)
    requires s.inverse == Translation(-x, -y, -z) && ray == Ray(Tuple(ox, oy, oz, 1.0), Tuple(0.0, 0.0, dz, 0.0))
    requires AxialMiss(ox - x, oy - y, oz - z, dz)
    ensures Is4Wide(s.inverse) && QuadA(ObjectRay(s, ray)) != 0.0
    ensures Intersect(s, ray, sqrt) == []
  {
    TranslatedObjectRay(s, ray, x, y, z);
    AxialIntersectMisses(s, ray, sqrt, ox - x, oy - y, oz - z, dz);
  }

  /** A ray along z that, moved by (−x, −y, −z), misses the unit sphere misses the sphere
      translated by (x, y, z). */
  lemma TranslatedAxialIntersectMisses(s0: Sphere, s: Sphere, ray: Ray, sqrt: real -> real,
                                       ox: real, oy: real, oz: real, dz: real, x: real, y: real, z: real)
    requires s == Translated(s0, x, y, z) && ray == Ray(Tuple(ox, oy, oz, 1.0), Tuple(0.0, 0.0, dz, 0.0))
    requires AxialMiss(ox - x, oy - y, oz - z, dz)
    ensures QuadA(ObjectRay(s, ray)) != 0.0
    ensures Intersect(s, ray, sqrt) == []
  {
    TranslatedAxialMisses(s, ray, sqrt, ox, oy, oz, dz, x, y, z);
  }

  lemma OffsetMiss()
    ensures AxialMiss(-5.0, 0.0, -5.0, 1.0)
  {}

  lemma IntersectingTranslatedSphereTest(sqrt: real -> real, s: Sphere, ray: Ray)
    requires s == Translated(NewSphere(), 5.0, 0.0, 0.0)
    requires ray == Ray(Point(0.0, 0.0, -5.0), Vector(0.0, 0.0, 1.0))
    ensures QuadA(ObjectRay(s, ray)) != 0.0
    ensures Intersect(s, ray, sqrt) == []
  {
    LiteralSlots(0.0, 0.0, -5.0);
    LiteralSlots(0.0, 0.0, 1.0);
    OffsetMiss();
    TranslatedAxialIntersectMisses(NewSphere(), s, ray, sqrt, 0.0, 0.0, -5.0, 1.0, 5.0, 0.0, 0.0);
  }

  lemma IntersectSetsObjectTest(sqrt: real -> real, s: Sphere, ray: Ray)
    requires sqrt(4.0) == 2.0 && s == NewSphere()
    requires ray == Ray(Point(0.0, 0.0, -5.0), Vector(0.0, 0.0, 1.0))
    ensures QuadA(ObjectRay(s, ray)) != 0.0
    ensures |Intersect(s, ray, sqrt)| == 2
    ensures Intersect(s, ray, sqrt)[0].obj == s && Intersect(s, ray, sqrt)[1].obj == s
  {
    RayIntersectsSphereAtTwoPointsTest(sqrt, s, ray);
  }

  lemma ChangingSpheresTransformationTest()
    ensures Translated(NewSphere(), 2.0, 3.0, 4.0).transform == Translation(2.0, 3.0, 4.0)
  {}

  /** The point (x, y, z) is on the unit sphere exactly when x² + y² + z² = 1. */
  lemma OnUnitSphereAt(x: real, y: real, z: real)
    ensures OnUnitSphere(Tuple(x, y, z, 1.0)) <==> x * x + y * y + z * z == 1.0
  {}

  /** The points one unit along an axis lie on the unit sphere. */
  lemma AxisPointOnUnitSphere(x: real, y: real, z: real)
    requires (x == 1.0 && y == 0.0 && z == 0.0) || (x == 0.0 && y == 1.0 && z == 0.0) || (x == 0.0 && y == 0.0 && z == 1.0)
    ensures OnUnitSphere(Tuple(x, y, z, 1.0))
  {
    OnUnitSphereAt(x, y, z);
  }

  lemma DiagonalOnUnitSphere(r: real)
    requires r * r == 3.0
    ensures OnUnitSphere(Tuple(r / 3.0, r / 3.0, r / 3.0, 1.0))
  {
    assert (r / 3.0) * (r / 3.0) == (r * r) / 9.0;
  }

  lemma NormalOnSphereAtPointOnXAxisTest(sqrt: real -> real, s: Sphere)
    requires sqrt(1.0) == 1.0 && s == NewSphere()
    ensures Magnitude(WorldNormal(s, Point(1.0, 0.0, 0.0)), sqrt) != 0.0
    ensures NormalAt(s, Point(1.0, 0.0, 0.0), sqrt) == Vector(1.0, 0.0, 0.0)
  {
    LiteralSlots(1.0, 0.0, 0.0);
    AxisPointOnUnitSphere(1.0, 0.0, 0.0);
    NormalOnUnitSphere(s, Point(1.0, 0.0, 0.0), sqrt);
  }

  lemma NormalOnSphereAtPointOnYAxisTest(sqrt: real -> real, s: Sphere)
    requires sqrt(1.0) == 1.0 && s == NewSphere()
    ensures Magnitude(WorldNormal(s, Point(0.0, 1.0, 0.0)), sqrt) != 0.0
    ensures NormalAt(s, Point(0.0, 1.0, 0.0), sqrt) == Vector(0.0, 1.0, 0.0)
  {
    LiteralSlots(0.0, 1.0, 0.0);
    AxisPointOnUnitSphere(0.0, 1.0, 0.0);
    NormalOnUnitSphere(s, Point(0.0, 1.0, 0.0), sqrt);
  }

  lemma NormalOnSphereAtPointOnZAxisTest(sqrt: real -> real, s: Sphere)
    requires sqrt(1.0) == 1.0 && s == NewSphere()
    ensures Magnitude(WorldNormal(s, Point(0.0, 0.0, 1.0)), sqrt) != 0.0
    ensures NormalAt(s, Point(0.0, 0.0, 1.0), sqrt) == Vector(0.0, 0.0, 1.0)
  {
    LiteralSlots(0.0, 0.0, 1.0);
    AxisPointOnUnitSphere(0.0, 0.0, 1.0);
    NormalOnUnitSphere(s, Point(0.0, 0.0, 1.0), sqrt);
  }

  lemma NormalOnSphereAtNonAxialPointTest(sqrt: real -> real, s: Sphere)
    requires sqrt(3.0) * sqrt(3.0) == 3.0 && sqrt(1.0) == 1.0 && s == NewSphere()
    ensures var k := sqrt(3.0) / 3.0;
      Magnitude(WorldNormal(s, Point(k, k, k)), sqrt) != 0.0 && NormalAt(s, Point(k, k, k), sqrt) == Vector(k, k, k)
  {
    var k := sqrt(3.0) / 3.0;
    LiteralSlots(k, k, k);
    DiagonalOnUnitSphere(sqrt(3.0));
    NormalOnUnitSphere(s, Point(k, k, k), sqrt);
  }

  lemma NormalIsNormalizedVectorTest(sqrt: real -> real, s: Sphere)
    requires sqrt(3.0) * sqrt(3.0) == 3.0 && sqrt(1.0) == 1.0 && s == NewSphere()
    ensures var k := sqrt(3.0) / 3.0;
      Magnitude(WorldNormal(s, Point(k, k, k)), sqrt) != 0.0
      && Magnitude(NormalAt(s, Point(k, k, k), sqrt), sqrt) != 0.0
      && Normalize(NormalAt(s, Point(k, k, k), sqrt), sqrt) == NormalAt(s, Point(k, k, k), sqrt)
  {
    var k := sqrt(3.0) / 3.0;
    LiteralSlots(k, k, k);
    DiagonalOnUnitSphere(sqrt(3.0));
    NormalOnUnitSphereIsNormalized(s, Point(k, k, k), sqrt);
  }

  /** The normal of a translated sphere before normalising: p − (x, y, z) as a vector. */
  lemma TranslatedWorldNormal(s0: Sphere, s: Sphere, p: Tuple, x: real, y: real, z: real)
    requires s == Translated(s0, x, y, z) && IsPoint(p)
    ensures Is4Wide(s.inverse) && Is4Wide(s.inverseTransposed)
    ensures WorldNormal(s, p) == Vector(p.x - x, p.y - y, p.z - z)
  {
    NormalOfTranslatedSphere(s, x, y, z, p);
  }

  lemma ShiftedNormalNearlyUnit()
    ensures NearlyUnit(Vector(0.0, 0.70711, -0.70711))
  {}

  lemma ComputingNormalOnTranslatedSphereTest(sqrt: real -> real, s: Sphere)
    requires IsSqrt(sqrt) && s == Translated(NewSphere(), 0.0, 1.0, 0.0)
    ensures WorldNormal(s, Point(0.0, 1.70711, -0.70711)) == Vector(0.0, 0.70711, -0.70711)
    ensures Magnitude(WorldNormal(s, Point(0.0, 1.70711, -0.70711)), sqrt) != 0.0
    ensures ApproxEq(NormalAt(s, Point(0.0, 1.70711, -0.70711), sqrt), Vector(0.0, 0.70711, -0.70711))
  {
    LiteralSlots(0.0, 1.70711, -0.70711);
    TranslatedWorldNormal(NewSphere(), s, Point(0.0, 1.70711, -0.70711), 0.0, 1.0, 0.0);
    ShiftedNormalNearlyUnit();
    NormalizeNearlyUnit(Vector(0.0, 0.70711, -0.70711), sqrt);
  }

  lemma SphereMayBeAssignedMaterialTest()
    ensures var m := DefaultMaterial().(ambient := 1.0);
      WithMaterial(NewSphere(), m).material == m
  {}

  lemma DefaultSphereTest()
    ensures NewSphere().transform == Identity() && MaterialEq(NewSphere().material, DefaultMaterial())
  {}
}
