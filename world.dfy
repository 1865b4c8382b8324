/** The scene of `src/world.rs`: an optional light and a list of spheres, and the world
    intersection that gathers every sphere's records and sorts them by t. The library's
    stable `sort_by` is specified by SortByT, a stable insertion sort; that it orders by t,
    keeps the records and keeps equal-t records in their gathered order is proved below. */
module Worlds {
  import opened Tuples
  import opened Matrices
  import opened Transformations
  import opened Rays
  import opened Intersections
  import opened Materials
  import opened Spheres

  datatype Option<T> = None | Some(value: T)

  /** `World`: the light, if any, and the objects in the order they were added. */
  datatype World = World(light: Option<PointLight>, objects: seq<Sphere>)

  /** `World::new`: no light and no objects. */
  function NewWorld(): (w: World)
    ensures w.light == None && |w.objects| == 0
  {
    World(None, [])
  }

  /** The material `World::default` gives its first sphere. */
  function FirstSphereMaterial(): Material {
    Material(Color(0.8, 1.0, 0.6), 0.0, 0.7, 0.2, 0.0)
  }

  /** `World::default`: a white light at (−10, 10, −10); an untransformed sphere with
      FirstSphereMaterial, then a sphere of the default material scaled by 0.5. The source
      builds the light with `PointLight::new`, which `src/lights.rs` does not define; the
      model builds the record directly. */
  function DefaultWorld(): (w: World)
    ensures w.light == Some(PointLight(Point(-10.0, 10.0, -10.0), Color(1.0, 1.0, 1.0)))
    ensures |w.objects| == 2 && Valid(w.objects[0]) && Valid(w.objects[1])
    ensures w.objects[0].transform == Identity() && w.objects[0].material == FirstSphereMaterial()
    ensures w.objects[1].transform == Scaling(0.5, 0.5, 0.5) && w.objects[1].material == DefaultMaterial()
    ensures w.objects[0].inverse == Identity() && w.objects[1].inverse == Scaling(1.0 / 0.5, 1.0 / 0.5, 1.0 / 0.5)
  {
    NewSphereValid();
    World(Some(PointLight(Point(-10.0, 10.0, -10.0), Color(1.0, 1.0, 1.0))),
          [WithMaterial(NewSphere(), FirstSphereMaterial()), Scaled(NewSphere(), 0.5, 0.5, 0.5)])
  }

  /** The derived `PartialEq for Sphere`: transforms and materials compared with their
      tolerances (the stored inverse and transpose are not fields of the source's sphere). */
  predicate SphereEq(a: Sphere, b: Sphere) {
    ApproxEqual(a.transform, b.transform) && MaterialEq(a.material, b.material)
  }

  /** `World::contains`: some object equals s. */
  predicate Contains(w: World, s: Sphere) {
    exists i :: 0 <= i < |w.objects| && SphereEq(w.objects[i], s)
  }

  /** A world contains each of its objects, and contains nothing that equals none of them. */
  lemma ContainsItsObjects(w: World, s: Sphere)
    ensures forall i :: 0 <= i < |w.objects| ==> Contains(w, w.objects[i])
    ensures (forall i :: 0 <= i < |w.objects| ==> !SphereEq(w.objects[i], s)) ==> !Contains(w, s)
  {
    forall i | 0 <= i < |w.objects|
      ensures Contains(w, w.objects[i])
    {
      ApproxEqualReflexiveSymmetric(w.objects[i].transform, w.objects[i].transform);
      ApproxEqReflexiveSymmetric(w.objects[i].material.color, w.objects[i].material.color);
    }
  }

  // ---------------------------------------------------------------- intersect

  /** Every object can be intersected with the ray: its stored inverse has the sixteen
      elements `tuple_prod` reads, and the ray's direction is not zero in its object space. */
  predicate Hittable(objects: seq<Sphere>, ray: Ray) {
    forall i :: 0 <= i < |objects| ==> Is4Wide(objects[i].inverse) && QuadA(ObjectRay(objects[i], ray)) != 0.0
  }

  /** The records of every object, object by object, each object's records in its own order. */
  function AllHits(objects: seq<Sphere>, ray: Ray, sqrt: real -> real): (xs: seq<Intersection<Sphere>>)
    requires Hittable(objects, ray)
    ensures |xs| % 2 == 0
  {
    if |objects| == 0 then []
    else AllHits(objects[..|objects| - 1], ray, sqrt) + Spheres.Intersect(objects[|objects| - 1], ray, sqrt)
  }

  predicate SortedByT<O>(xs: seq<Intersection<O>>) {
    forall i, j :: 0 <= i < j < |xs| ==> xs[i].t <= xs[j].t
  }

  /** The records whose t is exactly t0, in their order in xs. */
  function WithT<O>(xs: seq<Intersection<O>>, t0: real): seq<Intersection<O>> {
    if |xs| == 0 then []
    else if xs[0].t == t0 then [xs[0]] + WithT(xs[1..], t0)
    else WithT(xs[1..], t0)
  }

  /** Puts x before the first record whose t is not smaller than x's. */
  function InsertByT<O>(x: Intersection<O>, xs: seq<Intersection<O>>): seq<Intersection<O>> {
    if |xs| == 0 then [x]
    else if x.t <= xs[0].t then [x] + xs
    else [xs[0]] + InsertByT(x, xs[1..])
  }

  /** The stable sort by t: the first record is inserted into the sorted rest ahead of every
      record with the same t. */
  function SortByT<O>(xs: seq<Intersection<O>>): seq<Intersection<O>> {
    if |xs| == 0 then [] else InsertByT(xs[0], SortByT(xs[1..]))
  }

  lemma {:induction false} InsertKeepsSorted<O>(x: Intersection<O>, xs: seq<Intersection<O>>)
    requires SortedByT(xs)
    ensures SortedByT(InsertByT(x, xs))
    ensures |InsertByT(x, xs)| == |xs| + 1
    ensures InsertByT(x, xs)[0] == x || (|xs| > 0 && InsertByT(x, xs)[0] == xs[0])
  {
    if |xs| > 0 && x.t > xs[0].t {
      InsertKeepsSorted(x, xs[1..]);
    }
  }

  lemma {:induction false} InsertKeepsRecords<O>(x: Intersection<O>, xs: seq<Intersection<O>>)
    ensures multiset(InsertByT(x, xs)) == multiset(xs) + multiset{x}
  {
    if |xs| > 0 && x.t > xs[0].t {
      InsertKeepsRecords(x, xs[1..]);
      assert xs == [xs[0]] + xs[1..];
    }
  }

  /** Inserting x lands it ahead of every record with x's t and moves no other record past
      one of equal t. */
  lemma {:induction false} InsertIsStable<O>(x: Intersection<O>, xs: seq<Intersection<O>>, t0: real)
    ensures WithT(InsertByT(x, xs), t0) == (if x.t == t0 then [x] else []) + WithT(xs, t0)
  {
    var r := InsertByT(x, xs);
    if |xs| == 0 {
      assert r[0] == x && r[1..] == [];
    } else if x.t <= xs[0].t {
      assert r[0] == x && r[1..] == xs;
    } else {
      var rest := InsertByT(x, xs[1..]);
      assert r[0] == xs[0] && r[1..] == rest;
      InsertIsStable(x, xs[1..], t0);
      if xs[0].t == t0 {
        assert x.t != t0;
        assert WithT(r, t0) == [xs[0]] + WithT(rest, t0);
        assert WithT(xs, t0) == [xs[0]] + WithT(xs[1..], t0);
      } else {
        assert WithT(r, t0) == WithT(rest, t0);
        assert WithT(xs, t0) == WithT(xs[1..], t0);
      }
    }
  }

  /** SortByT orders by t and keeps the length. */
  lemma {:induction false} SortByTSorted<O>(xs: seq<Intersection<O>>)
    ensures SortedByT(SortByT(xs)) && |SortByT(xs)| == |xs|
  {
    if |xs| > 0 {
      SortByTSorted(xs[1..]);
      InsertKeepsSorted(xs[0], SortByT(xs[1..]));
    }
  }

  /** SortByT keeps every record, as often as it occurs. */
  lemma {:induction false} SortByTPermutes<O>(xs: seq<Intersection<O>>)
    ensures multiset(SortByT(xs)) == multiset(xs)
  {
    if |xs| > 0 {
      SortByTPermutes(xs[1..]);
      InsertKeepsRecords(xs[0], SortByT(xs[1..]));
      assert xs == [xs[0]] + xs[1..];
    }
  }

  /** SortByT keeps the records of each t in their order: it is stable. */
  lemma {:induction false} SortByTStable<O>(xs: seq<Intersection<O>>, t0: real)
    ensures WithT(SortByT(xs), t0) == WithT(xs, t0)
  {
    if |xs| > 0 {
      SortByTStable(xs[1..], t0);
      InsertIsStable(xs[0], SortByT(xs[1..]), t0);
    }
  }

  /** What SortByT promises, gathered: ordered by t, the same records, stable. */
  lemma SortByTCorrect<O>(xs: seq<Intersection<O>>)
    ensures SortedByT(SortByT(xs)) && |SortByT(xs)| == |xs|
    ensures multiset(SortByT(xs)) == multiset(xs)
    ensures forall t0 :: WithT(SortByT(xs), t0) == WithT(xs, t0)
  {
    SortByTSorted(xs);
    SortByTPermutes(xs);
    forall t0
      ensures WithT(SortByT(xs), t0) == WithT(xs, t0)
    {
      SortByTStable(xs, t0);
    }
  }

  /** `World::intersect`: collects each object's records, appends them one object after
      another, and sorts the whole by t with the stable library sort. */
  method Intersect(w: World, ray: Ray, sqrt: real -> real) returns (xs: seq<Intersection<Sphere>>)
    requires Hittable(w.objects, ray)
    ensures xs == SortByT(AllHits(w.objects, ray, sqrt))
    ensures SortedByT(xs) && multiset(xs) == multiset(AllHits(w.objects, ray, sqrt))
    ensures |xs| % 2 == 0
    ensures forall t0 :: WithT(xs, t0) == WithT(AllHits(w.objects, ray, sqrt), t0)
  {
    var vecs := seq(|w.objects|, i requires 0 <= i < |w.objects| => Spheres.Intersect(w.objects[i], ray, sqrt));
    var vv := [];
    var i := 0;
    while i < |vecs|
      invariant 0 <= i <= |vecs|
      invariant vv == AllHits(w.objects[..i], ray, sqrt)
    {
      assert w.objects[..i + 1][..i] == w.objects[..i];
      vv := vv + vecs[i];
      i := i + 1;
    }
    assert w.objects[..|w.objects|] == w.objects;
    xs := SortByT(vv);
    SortByTCorrect(vv);
  }

  // ---------------------------------------------------------------- the unit tests' values

  lemma CreatingWorldTest()
    ensures NewWorld().light == None && |NewWorld().objects| == 0
  {}

  /** The default world holds the white light and spheres equal to the two the test builds. */
  lemma DefaultWorldTest(w: World)
    requires w == DefaultWorld()
    ensures w.light == Some(PointLight(Point(-10.0, 10.0, -10.0), Color(1.0, 1.0, 1.0)))
    ensures Contains(w, WithMaterial(NewSphere(), FirstSphereMaterial()))
    ensures Contains(w, Scaled(NewSphere(), 0.5, 0.5, 0.5))
  {
    assert w.objects == [WithMaterial(NewSphere(), FirstSphereMaterial()), Scaled(NewSphere(), 0.5, 0.5, 0.5)];
    ContainsItsObjects(w, w.objects[0]);
  }

  /** A sphere with no transform, hit through its centre from z = −5. */
  lemma UntransformedCentreHits(sqrt: real -> real, s: Sphere, ray: Ray)
    requires sqrt(4.0) == 2.0 && s.inverse == Identity()
    requires ray == Ray(Point(0.0, 0.0, -5.0), Vector(0.0, 0.0, 1.0))
    ensures Is4Wide(s.inverse) && QuadA(ObjectRay(s, ray)) != 0.0
    ensures Spheres.Intersect(s, ray, sqrt) == [NewIntersection(4.0, s), NewIntersection(6.0, s)]
  {
    LiteralSlots(0.0, 0.0, -5.0);
    LiteralSlots(0.0, 0.0, 1.0);
    ObjectRayOfIdentity(s, ray);
    CentreFromFrontRoots();
    AxialIntersect(s, ray, sqrt, 0.0, 0.0, -5.0, 1.0, 4.0, 2.0, 4.0, 6.0);
  }

  /** The sphere scaled by 0.5 sees the ray start at z = −10 with direction length 2. */
  lemma HalfScaledObjectRay(s: Sphere, ray: Ray)
    requires s.inverse == Scaling(1.0 / 0.5, 1.0 / 0.5, 1.0 / 0.5)
    requires ray == Ray(Point(0.0, 0.0, -5.0), Vector(0.0, 0.0, 1.0))
    ensures Is4Wide(s.inverse)
    ensures ObjectRay(s, ray) == Ray(Tuple(0.0, 0.0, -10.0, 1.0), Tuple(0.0, 0.0, 2.0, 0.0))
  {
    LiteralSlots(0.0, 0.0, -5.0);
    LiteralSlots(0.0, 0.0, 1.0);
    ScaledRay(ray, 1.0 / 0.5, 1.0 / 0.5, 1.0 / 0.5);
  }

  lemma HalfScaledRoots()
    ensures AxialRoots(0.0, 0.0, -10.0, 2.0, 16.0, 4.0, 4.5, 5.5)
  {}

  lemma HalfScaledHits(sqrt: real -> real, s: Sphere, ray: Ray)
    requires sqrt(16.0) == 4.0 && s.inverse == Scaling(1.0 / 0.5, 1.0 / 0.5, 1.0 / 0.5)
    requires ray == Ray(Point(0.0, 0.0, -5.0), Vector(0.0, 0.0, 1.0))
    ensures Is4Wide(s.inverse) && QuadA(ObjectRay(s, ray)) != 0.0
    ensures Spheres.Intersect(s, ray, sqrt) == [NewIntersection(4.5, s), NewIntersection(5.5, s)]
  {
    HalfScaledObjectRay(s, ray);
    HalfScaledRoots();
    AxialIntersect(s, ray, sqrt, 0.0, 0.0, -10.0, 2.0, 16.0, 4.0, 4.5, 5.5);
  }

  /** The gathered records 4, 6 (first sphere), 4.5, 5.5 (second sphere) sort to 4, 4.5, 5.5, 6. */
  lemma SortDefaultHits(a: Sphere, b: Sphere)
    ensures SortByT([NewIntersection(4.0, a), NewIntersection(6.0, a), NewIntersection(4.5, b), NewIntersection(5.5, b)])
         == [NewIntersection(4.0, a), NewIntersection(4.5, b), NewIntersection(5.5, b), NewIntersection(6.0, a)]
  {
    var i4, i6, i45, i55 := Intersection(4.0, a), Intersection(6.0, a), Intersection(4.5, b), Intersection(5.5, b);
    var xs := [i4, i6, i45, i55];
    assert SortByT([i55]) == [i55] by { assert [i55][1..] == []; }
    assert SortByT([i45, i55]) == [i45, i55] by { assert [i45, i55][1..] == [i55]; }
    assert InsertByT(i6, [i55]) == [i55, i6] by { assert [i55][1..] == []; }
    assert InsertByT(i6, [i45, i55]) == [i45, i55, i6] by { assert [i45, i55][1..] == [i55]; }
    assert SortByT([i6, i45, i55]) == [i45, i55, i6] by { assert [i6, i45, i55][1..] == [i45, i55]; }
    assert SortByT(xs) == [i4, i45, i55, i6] by { assert xs[1..] == [i6, i45, i55]; }
  }

  /** The records of a world of two objects are the first object's, then the second's. */
  lemma TwoObjectHits(objects: seq<Sphere>, ray: Ray, sqrt: real -> real)
    requires |objects| == 2 && Hittable(objects, ray)
    ensures AllHits(objects, ray, sqrt)
         == Spheres.Intersect(objects[0], ray, sqrt) + Spheres.Intersect(objects[1], ray, sqrt)
  {
    assert objects[..1][..0] == [];
    assert AllHits(objects[..1], ray, sqrt) == Spheres.Intersect(objects[0], ray, sqrt);
  }

  /** Two objects whose records are 4, 6 and 4.5, 5.5: the sorted records are at t = 4, 4.5,
      5.5, 6. */
  lemma TwoObjectsSorted(sqrt: real -> real, objects: seq<Sphere>, ray: Ray)
    requires |objects| == 2
    requires Is4Wide(objects[0].inverse) && QuadA(ObjectRay(objects[0], ray)) != 0.0
    requires Is4Wide(objects[1].inverse) && QuadA(ObjectRay(objects[1], ray)) != 0.0
    requires Spheres.Intersect(objects[0], ray, sqrt) == [NewIntersection(4.0, objects[0]), NewIntersection(6.0, objects[0])]
    requires Spheres.Intersect(objects[1], ray, sqrt) == [NewIntersection(4.5, objects[1]), NewIntersection(5.5, objects[1])]
    ensures Hittable(objects, ray)
    ensures var xs := SortByT(AllHits(objects, ray, sqrt));
      |xs| == 4 && xs[0].t == 4.0 && xs[1].t == 4.5 && xs[2].t == 5.5 && xs[3].t == 6.0
  {
    TwoObjectHits(objects, ray, sqrt);
    SortDefaultHits(objects[0], objects[1]);
  }

  /** Intersecting the default world through its centre from z = −5 gives t = 4, 4.5, 5.5, 6. */
  lemma IntersectWorldWithRayTest(sqrt: real -> real, w: World, ray: Ray)
    requires sqrt(4.0) == 2.0 && sqrt(16.0) == 4.0 && w == DefaultWorld()
    requires ray == Ray(Point(0.0, 0.0, -5.0), Vector(0.0, 0.0, 1.0))
    ensures Hittable(w.objects, ray)
    ensures var xs := SortByT(AllHits(w.objects, ray, sqrt));
      |xs| == 4 && xs[0].t == 4.0 && xs[1].t == 4.5 && xs[2].t == 5.5 && xs[3].t == 6.0
  {
    UntransformedCentreHits(sqrt, w.objects[0], ray);
    HalfScaledHits(sqrt, w.objects[1], ray);
    TwoObjectsSorted(sqrt, w.objects, ray);
  }
}
