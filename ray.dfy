/** Rays of `src/ray.rs`: an origin and a direction, walked along by a real parameter. */
module Rays {
  import opened Tuples
  import opened Matrices
  import opened Transformations

  datatype Ray = Ray(origin: Tuple, direction: Tuple)

  /** `Ray::new` stores both tuples unchanged. */
  function NewRay(origin: Tuple, direction: Tuple): (r: Ray)
    ensures r.origin == origin && r.direction == direction
  {
    Ray(origin, direction)
  }

  /** The point reached after travelling t along the ray; t may be negative. */
  function Position(r: Ray, t: real): Tuple {
    Add(r.origin, Scale(r.direction, t))
  }

  /** The ray with origin and direction each mapped through the matrix. */
  function Transform(r: Ray, m: Matrix): Ray
    requires Is4Wide(m)
  {
    Ray(TupleProd(m, r.origin), TupleProd(m, r.direction))
  }

  // ---------------------------------------------------------------- position

  lemma PositionAtZero(r: Ray)
    ensures Position(r, 0.0) == r.origin
  {}

  /** From a point along a vector every position is a point. */
  lemma PositionIsPoint(r: Ray, t: real)
    requires IsPoint(r.origin) && IsVector(r.direction)
    ensures IsPoint(Position(r, t))
  {}

  /** Two positions differ by the direction scaled by the difference of their parameters. */
  lemma PositionDifference(r: Ray, t1: real, t2: real)
    ensures Sub(Position(r, t1), Position(r, t2)) == Scale(r.direction, t1 - t2)
  {}

  // ---------------------------------------------------------------- transform

  /** `tuple_prod` distributes over addition. */
  lemma TupleProdAdd(m: Matrix, a: Tuple, b: Tuple)
    requires Is4Wide(m)
    ensures TupleProd(m, Add(a, b)) == Add(TupleProd(m, a), TupleProd(m, b))
  {
    TupleProdRows(m, a);
    TupleProdRows(m, b);
    TupleProdRows(m, Add(a, b));
    DotAddRight(Row(m, 0), a, b);
    DotAddRight(Row(m, 1), a, b);
    DotAddRight(Row(m, 2), a, b);
    DotAddRight(Row(m, 3), a, b);
  }

  /** `tuple_prod` commutes with scaling. */
  lemma TupleProdScale(m: Matrix, d: Tuple, t: real)
    requires Is4Wide(m)
    ensures TupleProd(m, Scale(d, t)) == Scale(TupleProd(m, d), t)
  {
    TupleProdRows(m, d);
    TupleProdRows(m, Scale(d, t));
    DotsOfScaled(Row(m, 0), Row(m, 1), Row(m, 2), Row(m, 3), d, t);
  }

  /** Dotting four rows with d·t scales the four dots by t. */
  lemma DotsOfScaled(w0: Tuple, w1: Tuple, w2: Tuple, w3: Tuple, d: Tuple, t: real)
    ensures Tuple(Dot(w0, Scale(d, t)), Dot(w1, Scale(d, t)), Dot(w2, Scale(d, t)), Dot(w3, Scale(d, t)))
         == Scale(Tuple(Dot(w0, d), Dot(w1, d), Dot(w2, d), Dot(w3, d)), t)
  {
    DotScaleRight(w0, d, t);
    DotScaleRight(w1, d, t);
    DotScaleRight(w2, d, t);
    DotScaleRight(w3, d, t);
  }

  /** Transforming a ray and then walking t along it reaches the transform of the original
      position: the parameter t means the same in both spaces. */
  lemma TransformPosition(r: Ray, m: Matrix, t: real)
    requires Is4Wide(m)
    ensures Position(Transform(r, m), t) == TupleProd(m, Position(r, t))
  {
    TupleProdAdd(m, r.origin, Scale(r.direction, t));
    TupleProdScale(m, r.direction, t);
  }

  /** An affine transform keeps a point origin a point and a vector direction a vector. */
  lemma TransformKeepsKinds(r: Ray, m: Matrix)
    requires Is4Wide(m) && AffineLastRow(m) && IsPoint(r.origin) && IsVector(r.direction)
    ensures IsPoint(Transform(r, m).origin) && IsVector(Transform(r, m).direction)
  {
    TupleProdKeepsW(m, r.origin);
    TupleProdKeepsW(m, r.direction);
  }

  /** Translating a ray moves a point origin by (x, y, z) and leaves a vector direction unchanged. */
  lemma TranslatedRay(r: Ray, x: real, y: real, z: real)
    requires IsPoint(r.origin) && IsVector(r.direction)
    ensures Transform(r, Translation(x, y, z))
         == Ray(Point(r.origin.x + x, r.origin.y + y, r.origin.z + z), r.direction)
  {
    TranslationMovesPoint(x, y, z, r.origin);
    TranslationKeepsVector(x, y, z, r.direction);
  }

  /** Scaling a ray scales the x, y, z slots of both origin and direction. */
  lemma ScaledRay(r: Ray, x: real, y: real, z: real)
    ensures Transform(r, Scaling(x, y, z))
         == Ray(Tuple(r.origin.x * x, r.origin.y * y, r.origin.z * z, r.origin.w),
                Tuple(r.direction.x * x, r.direction.y * y, r.direction.z * z, r.direction.w))
  {
    ScalingScales(x, y, z, r.origin);
    ScalingScales(x, y, z, r.direction);
  }

  // ---------------------------------------------------------------- the unit tests' values

  lemma CreatingRayTest()
    ensures NewRay(Point(1.0, 2.0, 3.0), Vector(4.0, 5.0, 6.0)).origin == Point(1.0, 2.0, 3.0)
    ensures NewRay(Point(1.0, 2.0, 3.0), Vector(4.0, 5.0, 6.0)).direction == Vector(4.0, 5.0, 6.0)
  {}

  lemma PositionForwardTest()
    ensures Position(NewRay(Point(2.0, 3.0, 4.0), Vector(1.0, 0.0, 0.0)), 1.0) == Point(3.0, 3.0, 4.0)
  {
    assert Position(NewRay(Point(2.0, 3.0, 4.0), Vector(1.0, 0.0, 0.0)), 1.0) == Tuple(3.0, 3.0, 4.0, 1.0);
  }

  lemma PositionBackwardTest()
    ensures Position(NewRay(Point(2.0, 3.0, 4.0), Vector(1.0, 0.0, 0.0)), -1.0) == Point(1.0, 3.0, 4.0)
  {
    assert Position(NewRay(Point(2.0, 3.0, 4.0), Vector(1.0, 0.0, 0.0)), -1.0) == Tuple(1.0, 3.0, 4.0, 1.0);
  }

  lemma PositionFractionTest()
    ensures Position(NewRay(Point(2.0, 3.0, 4.0), Vector(1.0, 0.0, 0.0)), 2.5) == Point(4.5, 3.0, 4.0)
  {
    assert Position(NewRay(Point(2.0, 3.0, 4.0), Vector(1.0, 0.0, 0.0)), 2.5) == Tuple(4.5, 3.0, 4.0, 1.0);
  }

  /** Translating a ray moves its origin and leaves its direction alone. */
  lemma TranslatingRayTest()
    ensures Transform(NewRay(Point(1.0, 2.0, 3.0), Vector(0.0, 1.0, 0.0)), Translation(3.0, 4.0, 5.0))
         == NewRay(Point(4.0, 6.0, 8.0), Vector(0.0, 1.0, 0.0))
  {
    TranslatedRay(NewRay(Point(1.0, 2.0, 3.0), Vector(0.0, 1.0, 0.0)), 3.0, 4.0, 5.0);
  }

  /** Scaling a ray scales both its origin and its direction. */
  lemma ScalingRayTest()
    ensures Transform(NewRay(Point(1.0, 2.0, 3.0), Vector(0.0, 1.0, 0.0)), Scaling(2.0, 3.0, 4.0))
         == NewRay(Point(2.0, 6.0, 12.0), Vector(0.0, 3.0, 0.0))
  {
    ScaledRay(NewRay(Point(1.0, 2.0, 3.0), Vector(0.0, 1.0, 0.0)), 2.0, 3.0, 4.0);
  }
}
