/** Intersection records of `src/intersection.rs`: a ray parameter t and the object it hit.
    The source holds a borrowed `&Sphere`; here the record holds the object value itself, and
    the record type is generic in it so that the sphere module can produce records of itself. */
module Intersections {

  datatype Intersection<O> = Intersection(t: real, obj: O)

  /** `Intersection::new` keeps t and the object exactly as given. */
  function NewIntersection<O>(t: real, obj: O): (i: Intersection<O>)
    ensures i.t == t && i.obj == obj
  {
    Intersection(t, obj)
  }

  /** `intersections` collects its two arguments, in argument order and without sorting. */
  function Intersections<O>(i1: Intersection<O>, i2: Intersection<O>): (xs: seq<Intersection<O>>)
    ensures |xs| == 2 && xs[0] == i1 && xs[1] == i2
  {
    [i1, i2]
  }

  /** Nothing is sorted: the later argument stays second even when its t is smaller. */
  lemma IntersectionsKeepOrder<O>(o: O)
    ensures Intersections(NewIntersection(2.0, o), NewIntersection(1.0, o))[0].t
          > Intersections(NewIntersection(2.0, o), NewIntersection(1.0, o))[1].t
  {}

  // ---------------------------------------------------------------- the unit tests' values

  lemma EncapsulatesTAndObjectTest<O>(s: O)
    ensures NewIntersection(3.5, s).t == 3.5 && NewIntersection(3.5, s).obj == s
  {}

  lemma AggregatingIntersectionsTest<O>(s: O)
    ensures var xs := Intersections(NewIntersection(1.0, s), NewIntersection(2.0, s));
      |xs| == 2 && xs[0].t == 1.0 && xs[1].t == 2.0
  {}
}
