# A verified model of a small Rust ray tracer

This project models the core of a ray tracer written in Rust after "The Ray Tracer
Challenge". It covers these parts of the tracer:

- four-slot tuples used as points, vectors and colours;
- square matrices stored row-major, with their tuple product, identity and product;
- the translation, scaling, rotation and shearing builders;
- rays and their transformation;
- unit spheres, with ray intersection by the quadratic formula and surface normals;
- intersection records;
- Phong materials and the `lightning` function;
- the world, which gathers every sphere's intersections and sorts them by t;
- the canvas, a pixel buffer that writes itself out as plain PPM text.

Floating-point numbers are modelled as Dafny `real`s. Rust's `sqrt`, `powf`, `sin`, `cos` and
the tuple `reflect` function are passed in as function-typed parameters. The lemmas that need
their laws state them: `IsSqrt` says the result is the non-negative square root, and
`IsReflect` says reflect returns v − n·2(v·n).

The modules follow the source files:

- `Tuples` models `tuple.rs`.
- `Matrices` models `matrix.rs`.
- `Transformations` models `transformation.rs`.
- `Rays` models `ray.rs`.
- `Intersections` models `intersection.rs`.
- `Materials` models `material.rs` and the `PointLight` record of `lights.rs`.
- `Spheres` models `sphere.rs`.
- `Worlds` models `world.rs`.
- `Canvases` models `canvas.rs`.

The Rust unit tests are modelled too. Each becomes a lemma (or, for the canvas, a method) named
after the test, stating the values the test asserts. A lemma may cover several tests that share a
scenario, as its "## Model" row says. The one test not modelled is listed under "## Left out".

Most of the core is pure. Those parts are datatypes and functions. Four parts are imperative and
become methods with loop invariants:

- the matrix product `Matrices.Mul`;
- the element comparison `Matrices.CompareElems`;
- the world intersection `Worlds.Intersect`;
- the canvas `Canvases.Canvas`, a class over an array of pixels.

Each method is proved against a specification function. The properties the source promises are
then proved about that function.

## Model

| member | source | states |
|---|---|---|
| Tuples.PointSlots | src/tuple.rs:11-13 | a point has w = 1, is not a vector, and keeps its x, y, z |
| Tuples.VectorSlots | src/tuple.rs:14-16 | a vector has w = 0, is not a point, and keeps its x, y, z |
| Tuples.ColorIsVector | src/tuple.rs:18-20 | a colour is the vector with the same three channels (w = 0) |
| Tuples.MagnitudeSquared | src/tuple.rs:22-24 | the magnitude is non-negative and its square is x² + y² + z² |
| Tuples.MagnitudeIgnoresW | src/tuple.rs:22-24 | the magnitude does not depend on w |
| Tuples.Normalize | src/tuple.rs:26-33 | normalizing a vector yields a vector (w = 0) |
| Tuples.NormalizedMagnitude | src/tuple.rs:26-33 | a non-zero vector normalizes to a vector of magnitude exactly 1 |
| Tuples.NormalizeUnit | src/tuple.rs:26-33 | normalizing a unit vector returns it unchanged |
| Tuples.NormalizeNearlyUnit | src/tuple.rs:26-33 | a vector whose squared length is within the tolerance of 1 normalizes to a tuple equal to it under `==` |
| Tuples.DotOfVectors | src/tuple.rs:35-37 | for two vectors the four-slot dot product is the x, y, z dot product |
| Tuples.DotSymmetric | src/tuple.rs:35-37 | the dot product is symmetric |
| Tuples.Cross | src/tuple.rs:39-45 | the cross product is a vector perpendicular to each of its vector arguments |
| Tuples.CrossAntiCommutative | src/tuple.rs:39-45 | a × b = −(b × a) |
| Tuples.HadamardCommutative | src/tuple.rs:47-54 | the componentwise colour product is commutative |
| Tuples.Abs | src/tuple.rs:58-64 | the absolute value used by `==` is non-negative and equals x or −x |
| Tuples.ApproxEqReflexiveSymmetric | src/tuple.rs:58-64 | tuple `==` (each slot within 1e-5) is reflexive and symmetric |
| Tuples.ApproxEqNotTransitive | src/tuple.rs:58-64 | tuple `==` is not transitive: 0 ≈ 6e-6 ≈ 1.2e-5 but 0 ≉ 1.2e-5 |
| Tuples.VectorIsNotPoint | src/tuple.rs:58-64 | no vector equals the point with the same x, y, z |
| Tuples.AddSubInverse | src/tuple.rs:70-98 | subtraction undoes addition, a − b = a + (−b), negation is an involution, addition commutes |
| Tuples.PointPlusVector | src/tuple.rs:70-77 | point + vector is the moved point |
| Tuples.VectorPlusVector | src/tuple.rs:70-77 | vector + vector is a vector |
| Tuples.PointMinusPoint | src/tuple.rs:83-90 | point − point is the vector between them |
| Tuples.PointMinusVector | src/tuple.rs:83-90 | point − vector is a point |
| Tuples.VectorMinusVector | src/tuple.rs:83-90 | vector − vector is a vector |
| Tuples.ScaledVector | src/tuple.rs:104-106 | a scaled vector is a vector |
| Tuples.DivIsScaleByReciprocal | src/tuple.rs:112-114 | dividing by s is scaling by 1/s |
| Tuples.DivUndoesScale | src/tuple.rs:104-114 | dividing by s undoes scaling by s (s ≠ 0) |
| Tuples.TuplePointTest | src/tuple.rs:122-130 | point(4.3, −4.2, 3.1) is the tuple with w = 1 |
| Tuples.TupleVectorTest | src/tuple.rs:133-141 | vector(4.3, −4.2, 3.1) is the tuple with w = 0 |
| Tuples.EqualityTests | src/tuple.rs:144-165 | equal vectors compare equal; two different vectors do not |
| Tuples.AddingTwoTuplesTest | src/tuple.rs:168-173 | (3, −2, 5, 1) + (−2, 3, 1, 0) = (1, 1, 6, 1) |
| Tuples.SubtractingTwoPointsTest | src/tuple.rs:176-181 | (3,2,1) − (5,6,7) as points is the vector (−2, −4, −6) |
| Tuples.SubtractingVectorFromPointTest | src/tuple.rs:184-189 | point − vector gives the point (−2, −4, −6) |
| Tuples.SubtractingTwoVectorsTest | src/tuple.rs:192-197 | vector − vector gives the vector (−2, −4, −6) |
| Tuples.SubtractingVectorFromZeroVectorTest | src/tuple.rs:200-205 | 0 − (1, −2, 3) = (−1, 2, −3) |
| Tuples.NegatingTupleTest | src/tuple.rs:208-212 | −(1, −2, 3, −4) = (−1, 2, −3, 4) |
| Tuples.MultiplyingTupleByScalarTest | src/tuple.rs:215-219 | (1, −2, 3, −4) × 3.5 = (3.5, −7, 10.5, −14) |
| Tuples.MultiplyingTupleByFractionTest | src/tuple.rs:222-226 | (1, −2, 3, −4) × 0.5 = (0.5, −1, 1.5, −2) |
| Tuples.DividingTupleByScalarTest | src/tuple.rs:229-233 | (1, −2, 3, −4) ÷ 2 = (0.5, −1, 1.5, −2) |
| Tuples.MagnitudeOfVectorsTest | src/tuple.rs:236-242 | the unit axes have magnitude 1 and (±1, ±2, ±3) has magnitude √14 |
| Tuples.NormalizingVectorsTest | src/tuple.rs:245-258 | (4,0,0) normalizes to (1,0,0) and (1,2,3) to (1,2,3)/√14 |
| Tuples.MagnitudeOfNormalizedVectorTest | src/tuple.rs:261-263 | the normalized (1, 2, 3) has magnitude 1 |
| Tuples.DotProductTest | src/tuple.rs:266-271 | (1,2,3)·(2,3,4) = 20 |
| Tuples.CrossProductTest | src/tuple.rs:274-280 | (1,2,3) × (2,3,4) = (−1, 2, −1) |
| Tuples.CrossProductReversedTest | src/tuple.rs:274-280 | (2,3,4) × (1,2,3) = (1, −2, 1) |
| Tuples.ColorsAreTuplesTest | src/tuple.rs:283-289 | color(−0.5, 0.4, 1.7) holds its channels in x, y, z |
| Tuples.AddingColorsTest | src/tuple.rs:292-297 | (0.9, 0.6, 0.75) + (0.7, 0.1, 0.25) = (1.6, 0.7, 1.0) |
| Tuples.SubtractingColorsTest | src/tuple.rs:300-305 | (0.9, 0.6, 0.75) − (0.7, 0.1, 0.25) = (0.2, 0.5, 0.5), exactly over the reals |
| Tuples.MultiplyingColorByScalarTest | src/tuple.rs:308-312 | (0.2, 0.3, 0.4) × 2 = (0.4, 0.6, 0.8) |
| Tuples.MultiplyingColorsTest | src/tuple.rs:315-320 | (1, 0.2, 0.4) ⊙ (0.9, 1, 0.1) = (0.9, 0.2, 0.04) |
| Matrices.FromVectorAt | src/matrix.rs:13-22 | `at(r, c)` of a matrix built by `from_vector` reads element r·dim + c |
| Matrices.RowMajorIndex | src/matrix.rs:20-22 | the row-major index c + r·n lies inside the n·n array and determines r and c |
| Matrices.TupleProdRows | src/matrix.rs:24-30 | slot r of `tuple_prod` is row r dotted with the tuple |
| Matrices.TupleProdKeepsW | src/matrix.rs:24-30 | with last row (0,0,0,1), `tuple_prod` keeps w, so points stay points and vectors stay vectors |
| Matrices.Identity | src/matrix.rs:32-37 | the identity is 4×4 with ones on the diagonal and zeros elsewhere |
| Matrices.IdentityTupleProd | src/matrix.rs:32-37 | the identity leaves every tuple unchanged |
| Matrices.CompareElems | src/matrix.rs:42-49 | the early-exit loop answers true exactly when every zipped pair of elements differs by less than 1e-6 |
| Matrices.Equal | src/matrix.rs:41-52 | matrix `==` holds exactly when the dims agree and the elements compare equal |
| Matrices.ApproxEqualReflexiveSymmetric | src/matrix.rs:41-52 | matrix `==` is reflexive and symmetric |
| Matrices.ApproxEqualIgnoresTail | src/matrix.rs:41-52 | only the common prefix of the two arrays is compared, so extra trailing elements go unnoticed |
| Matrices.Mul | src/matrix.rs:58-72 | the nested loops build exactly the product: dim·dim entries, entry (i, j) = Σₓ a(i,x)·b(x,j) at index j + i·dim |
| Matrices.ProductAt | src/matrix.rs:58-72 | the product has the same dim and dim·dim elements, and `at(r, c)` is the row-by-column sum |
| Matrices.ProductIdentity | src/matrix.rs:58-72 | m × identity = m for every 4×4 m |
| Matrices.ProductTupleProd | src/matrix.rs:24-30 | for 4×4 A and B, (A·B)·t = A·(B·t) |
| Matrices.Constructing4x4Test | src/matrix.rs:80-93 | the 4×4 test matrix reads back the listed entries |
| Matrices.Constructing2x2Test | src/matrix.rs:96-104 | the 2×2 test matrix reads back the listed entries |
| Matrices.Constructing3x3Test | src/matrix.rs:107-114 | the 3×3 test matrix reads back the listed entries |
| Matrices.IdenticalMatricesTest | src/matrix.rs:117-125 | two matrices built from the same sixteen values compare equal |
| Matrices.DifferentMatricesTest | src/matrix.rs:128-140 | the two different test matrices do not compare equal |
| Matrices.MultiplyingTwoMatricesTest | src/matrix.rs:143-160 | the product of the two test matrices is the listed matrix |
| Matrices.MatrixTimesTupleTest | src/matrix.rs:163-171 | the test matrix times (1, 2, 3, 1) is (18, 24, 33, 1) |
| Matrices.MultiplyingMatrixByIdentityTest | src/matrix.rs:174-183 | the test matrix times the identity compares equal to the test matrix |
| Transformations.Translation | src/transformation.rs:3-12 | a translation is 4×4 with last row (0,0,0,1) |
| Transformations.Scaling | src/transformation.rs:14-23 | a scaling is 4×4 with last row (0,0,0,1) |
| Transformations.RotationX | src/transformation.rs:25-34 | a rotation about x is 4×4 with last row (0,0,0,1) |
| Transformations.RotationY | src/transformation.rs:36-45 | a rotation about y is 4×4 with last row (0,0,0,1) |
| Transformations.RotationZ | src/transformation.rs:47-56 | a rotation about z is 4×4 with last row (0,0,0,1) |
| Transformations.Shearing | src/transformation.rs:58-67 | a shearing is 4×4 with last row (0,0,0,1) |
| Transformations.TranslationMovesPoint | src/transformation.rs:3-12 | translation adds (x, y, z) to a point |
| Transformations.TranslationKeepsVector | src/transformation.rs:3-12 | translation leaves every vector unchanged |
| Transformations.TranslationInverse | src/transformation.rs:3-12 | translating by (−x, −y, −z) undoes translating by (x, y, z) |
| Transformations.TranslationInverseProduct | src/transformation.rs:3-12 | translation(x, y, z) × translation(−x, −y, −z) is the identity |
| Transformations.TranslationProduct | src/transformation.rs:3-12 | the product of two translations is the translation by the summed offsets |
| Transformations.ScalingScales | src/transformation.rs:14-23 | scaling multiplies x, y, z componentwise and keeps w |
| Transformations.ScalingInverse | src/transformation.rs:14-23 | scaling by (1/x, 1/y, 1/z) undoes scaling by (x, y, z) |
| Transformations.ScalingInverseProduct | src/transformation.rs:14-23 | scaling(x, y, z) × scaling(1/x, 1/y, 1/z) is the identity |
| Transformations.ScalingProduct | src/transformation.rs:14-23 | the product of two scalings scales by the products |
| Transformations.RotationXRotates | src/transformation.rs:25-34 | rotation about x maps (x, y, z) to (x, cos·y − sin·z, sin·y + cos·z) |
| Transformations.RotationXKeepsLength | src/transformation.rs:25-34 | when sin² + cos² = 1, rotation about x keeps the squared length |
| Transformations.RotationXInverse | src/transformation.rs:25-34 | the rotation by the opposite angle undoes a rotation about x |
| Transformations.RotationYRotates | src/transformation.rs:36-45 | rotation about y maps (x, y, z) to (cos·x + sin·z, y, cos·z − sin·x) |
| Transformations.RotationYKeepsLength | src/transformation.rs:36-45 | rotation about y keeps the squared length |
| Transformations.RotationZRotates | src/transformation.rs:47-56 | rotation about z maps (x, y, z) to (cos·x − sin·y, sin·x + cos·y, z) |
| Transformations.RotationZKeepsLength | src/transformation.rs:47-56 | rotation about z keeps the squared length |
| Transformations.ShearingShears | src/transformation.rs:58-67 | shearing maps a point to (x + xy·y + xz·z, y + yx·x + yz·z, z + zx·x + zy·y) |
| Transformations.ChainedTransforms | src/transformation.rs:250-258 | the chained product C·B·A applied to a point equals applying A, then B, then C |
| Transformations.TranslationTest | src/transformation.rs:76-81 | translation(5, −3, 2) moves (−3, 4, 5) to (2, 1, 7) |
| Transformations.TranslationInverseTest | src/transformation.rs:84-90 | the inverse translation moves (−3, 4, 5) to (−8, 7, 3) |
| Transformations.TranslationKeepsVectorTest | src/transformation.rs:93-98 | translation(5, −3, 2) leaves the vector (−3, 4, 5) unchanged |
| Transformations.ScalingPointTest | src/transformation.rs:101-106 | scaling(2, 3, 4) maps the point (−4, 6, 8) to (−8, 18, 32) |
| Transformations.ScalingVectorTest | src/transformation.rs:109-114 | scaling(2, 3, 4) maps the vector (−4, 6, 8) to (−8, 18, 32) |
| Transformations.ScalingInverseTest | src/transformation.rs:117-123 | the inverse scaling maps (−4, 6, 8) to (−2, 2, 2) |
| Transformations.ReflectionTest | src/transformation.rs:126-131 | scaling(−1, 1, 1) reflects (2, 3, 4) to (−2, 3, 4) |
| Transformations.RotatingAroundXTest | src/transformation.rs:134-144 | an eighth turn about x takes (0,1,0) to (0, √2/2, √2/2), a quarter turn to (0, 0, 1) |
| Transformations.InverseXRotationTest | src/transformation.rs:147-156 | the opposite eighth turn takes (0,1,0) to (0, √2/2, −√2/2) and undoes the eighth turn on every tuple |
| Transformations.RotatingAroundYTest | src/transformation.rs:159-169 | an eighth turn about y takes (0,0,1) to (√2/2, 0, √2/2), a quarter turn to (1, 0, 0) |
| Transformations.RotatingAroundZTest | src/transformation.rs:172-182 | an eighth turn about z takes (0,1,0) to (−√2/2, √2/2, 0), a quarter turn to (−1, 0, 0) |
| Transformations.ShearingXByYTest | src/transformation.rs:185-190 | shearing x by y maps (2, 3, 4) to (5, 3, 4) |
| Transformations.ShearingXByZTest | src/transformation.rs:193-198 | shearing x by z maps (2, 3, 4) to (6, 3, 4) |
| Transformations.ShearingYByXTest | src/transformation.rs:201-206 | shearing y by x maps (2, 3, 4) to (2, 5, 4) |
| Transformations.ShearingYByZTest | src/transformation.rs:209-214 | shearing y by z maps (2, 3, 4) to (2, 7, 4) |
| Transformations.ShearingZByXTest | src/transformation.rs:217-222 | shearing z by x maps (2, 3, 4) to (2, 3, 6) |
| Transformations.ShearingZByYTest | src/transformation.rs:225-230 | shearing z by y maps (2, 3, 4) to (2, 3, 7) |
| Transformations.IndividualRotationTest | src/transformation.rs:233-247 | the quarter turn about x takes (1, 0, 1) to (1, −1, 0) |
| Transformations.IndividualScalingTest | src/transformation.rs:233-247 | scaling by 5 then takes it to (5, −5, 0) |
| Transformations.IndividualTranslationTest | src/transformation.rs:233-247 | translating by (10, 5, 7) then takes it to (15, 0, 7) |
| Transformations.ChainedTransformsTest | src/transformation.rs:250-258 | the chained product takes (1, 0, 1) to (15, 0, 7) |
| Rays.NewRay | src/ray.rs:11-16 | a new ray keeps its origin and direction unchanged |
| Rays.PositionAtZero | src/ray.rs:18-20 | the position at t = 0 is the origin |
| Rays.PositionIsPoint | src/ray.rs:18-20 | with a point origin and a vector direction, every position is a point |
| Rays.PositionDifference | src/ray.rs:18-20 | two positions differ by the direction scaled by the difference of their t |
| Rays.TransformPosition | src/ray.rs:22-27 | the transformed ray's position at t is the transformed position at t |
| Rays.TransformKeepsKinds | src/ray.rs:22-27 | an affine transform keeps a point origin and a vector direction |
| Rays.TranslatedRay | src/ray.rs:22-27 | translating a ray moves its origin and leaves its direction unchanged |
| Rays.ScaledRay | src/ray.rs:22-27 | scaling a ray scales its origin and its direction |
| Rays.CreatingRayTest | src/ray.rs:37-44 | the test ray reports its origin and direction |
| Rays.PositionForwardTest | src/ray.rs:47-53 | the position at t = 1 is (3, 3, 4) |
| Rays.PositionBackwardTest | src/ray.rs:47-53 | the position at t = −1 is (1, 3, 4) |
| Rays.PositionFractionTest | src/ray.rs:47-53 | the position at t = 2.5 is (4.5, 3, 4) |
| Rays.TranslatingRayTest | src/ray.rs:56-63 | translation(3, 4, 5) takes the test ray to origin (4, 6, 8), same direction |
| Rays.ScalingRayTest | src/ray.rs:66-73 | scaling(2, 3, 4) takes the test ray to origin (2, 6, 12), direction (0, 3, 0) |
| Intersections.NewIntersection | src/intersection.rs:10-15 | a record keeps t and its object unchanged |
| Intersections.Intersections | src/intersection.rs:18-20 | `intersections` returns exactly its two arguments, in argument order |
| Intersections.IntersectionsKeepOrder | src/intersection.rs:18-20 | the records are not sorted: (t = 2, t = 1) stays in that order |
| Intersections.EncapsulatesTAndObjectTest | src/intersection.rs:28-34 | the record for t = 3.5 holds 3.5 and the sphere |
| Intersections.AggregatingIntersectionsTest | src/intersection.rs:37-46 | two records aggregate into a list of two with t = 1 then t = 2 |
| Materials.PointLightHasPositionAndIntensityTest | src/lights.rs:22-29 | a point light built from position (0, 0, 0) and intensity white keeps both |
| Materials.DefaultMaterialTest | src/material.rs:60-67 | the default material is white with ambient 0.1, diffuse 0.9, specular 0.9, shininess 200 |
| Materials.Lighting | src/material.rs:25-50 | light behind the surface: the result is exactly the ambient term. Reflection turned from the eye: ambient + diffuse. Otherwise: ambient + diffuse + specular, with pow(reflect·eye, shininess) |
| Materials.LightingAtLeastAmbient | src/material.rs:25-50 | with non-negative colours and coefficients, every channel of the result is at least the ambient term's |
| Materials.BlackSurfaceHighlight | src/material.rs:44-45 | on a black surface the result is the specular term alone, so the highlight takes the light's colour |
| Materials.LitSum | src/material.rs:25-50 | when the surface faces the light and the reflection reaches the eye, the result is the three-term sum |
| Materials.DefaultLighting | src/material.rs:25-50 | for the default material under white light, every channel is 0.1 + 0.9·(light·normal) + 0.9·pow(reflect·eye, 200) |
| Materials.DefaultLightingNear | src/material.rs:25-50 | under the same conditions, the result compares equal to grey g whenever that sum is within 5e-6 of g |
| Materials.EyeBetweenLightAndSurfaceTest | src/material.rs:70-79 | eye between light and surface gives (1.9, 1.9, 1.9) |
| Materials.EyeOppositeSurfaceLightOffset45Test | src/material.rs:82-92 | light offset 45° gives a colour equal to (0.7364, 0.7364, 0.7364) |
| Materials.EyeInPathOfReflectionTest | src/material.rs:95-105 | eye in the path of the reflection gives a colour equal to (1.6364, 1.6364, 1.6364) |
| Materials.LightBehindSurfaceTest | src/material.rs:108-117 | a light behind the surface gives (0.1, 0.1, 0.1) |
| Spheres.NewSphere | src/sphere.rs:14-19 | a new sphere has the identity transform (and identity inverse) and the default material |
| Spheres.NewSphereValid | src/sphere.rs:14-19 | a new sphere's stored inverse and transpose agree with its transform |
| Spheres.Intersect | src/sphere.rs:21-38 | either no records or exactly two; none exactly when b² − 4ac < 0 in object space; every record refers to the sphere |
| Spheres.IntersectFindsExactlyTheCrossings | src/sphere.rs:21-38 | the t values returned are exactly the t at which the object-space ray is on the unit sphere |
| Spheres.IntersectOrdered | src/sphere.rs:21-38 | the first t is never larger than the second |
| Spheres.QuadraticValue | src/sphere.rs:21-38 | the quadratic a·t² + b·t + c is the squared distance from the centre minus 1 |
| Spheres.CrossingsAreRoots | src/sphere.rs:21-38 | the ray is on the unit sphere at t exactly when t is one of the two roots |
| Spheres.NoCrossing | src/sphere.rs:21-38 | with a negative discriminant the ray never touches the sphere |
| Spheres.WorldPointOfHit | src/sphere.rs:21-38 | a hit found in object space is the transformed point of the world ray |
| Spheres.NormalAt | src/sphere.rs:40-50 | the normal is always a vector (w = 0) |
| Spheres.NormalIsUnit | src/sphere.rs:40-50 | the normal has magnitude 1 |
| Spheres.NormalOnUnitSphere | src/sphere.rs:40-50 | on an untransformed sphere the normal at p is p − origin |
| Spheres.NormalOfTranslatedSphere | src/sphere.rs:40-50 | on a translated sphere the normal before normalizing is p minus the centre |
| Spheres.RayIntersectsSphereAtTwoPointsTest | src/sphere.rs:65-73 | the ray from (0, 0, −5) along z meets the unit sphere at t = 4 and 6 |
| Spheres.RayIntersectsSphereAtTangentTest | src/sphere.rs:76-84 | the tangent ray gives t = 5 twice |
| Spheres.RayMissesSphereTest | src/sphere.rs:87-93 | the ray from (0, 2, −5) gives no records |
| Spheres.RayOriginatesInsideSphereTest | src/sphere.rs:96-104 | a ray from the centre gives t = −1 and 1 |
| Spheres.SphereIsBehindRayTest | src/sphere.rs:107-115 | a sphere behind the ray gives t = −6 and −4 |
| Spheres.IntersectSetsObjectTest | src/sphere.rs:118-126 | both records refer to the sphere |
| Spheres.DefaultSphereTest | src/sphere.rs:129-133 | a new sphere has the identity transform and a material equal to the default one (also the test at src/sphere.rs:245-250) |
| Spheres.ChangingSpheresTransformationTest | src/sphere.rs:136-143 | after setting a translation the sphere's transform is that translation |
| Spheres.IntersectingScaledSphereTest | src/sphere.rs:146-155 | the sphere scaled by 2 is met at t = 3 and 7 |
| Spheres.IntersectingTranslatedSphereTest | src/sphere.rs:158-165 | the sphere translated by (5, 0, 0) is missed |
| Spheres.NormalOnSphereAtPointOnXAxisTest | src/sphere.rs:168-173 | the normal at (1, 0, 0) is (1, 0, 0) |
| Spheres.NormalOnSphereAtPointOnYAxisTest | src/sphere.rs:176-181 | the normal at (0, 1, 0) is (0, 1, 0) |
| Spheres.NormalOnSphereAtPointOnZAxisTest | src/sphere.rs:184-189 | the normal at (0, 0, 1) is (0, 0, 1) |
| Spheres.NormalOnSphereAtNonAxialPointTest | src/sphere.rs:192-208 | the normal at (√3/3, √3/3, √3/3) is that vector |
| Spheres.NormalIsNormalizedVectorTest | src/sphere.rs:211-220 | that normal equals its own normalization |
| Spheres.ComputingNormalOnTranslatedSphereTest | src/sphere.rs:223-229 | on the sphere translated by (0, 1, 0), the normal at (0, 1.70711, −0.70711) compares equal to (0, 0.70711, −0.70711) |
| Spheres.SphereMayBeAssignedMaterialTest | src/sphere.rs:253-260 | a sphere given a material holds that material |
| Worlds.NewWorld | src/world.rs:15-20 | a new world has no light and no objects |
| Worlds.DefaultWorld | src/world.rs:21-43 | the default world has a white light at (−10, 10, −10), then an untransformed sphere with the custom material and a sphere scaled by 0.5 with the default material |
| Worlds.ContainsItsObjects | src/world.rs:44-46 | a world contains each of its objects and nothing that equals none of them |
| Worlds.AllHits | src/world.rs:48-53 | the gathered records of all objects number an even count |
| Worlds.SortByTCorrect | src/world.rs:54 | the sort orders by t, is a permutation, and keeps equal-t records in their gathered order |
| Worlds.InsertKeepsSorted | src/world.rs:54 | inserting into a sorted list keeps it sorted and adds one record |
| Worlds.InsertKeepsRecords | src/world.rs:54 | inserting adds exactly the one record |
| Worlds.InsertIsStable | src/world.rs:54 | inserting puts the record ahead of those with the same t |
| Worlds.Intersect | src/world.rs:48-56 | the loop returns the records of every object sorted by t: ordered, a permutation of the gathered records, stable, of even length |
| Worlds.CreatingWorldTest | src/world.rs:69-73 | a new world has no light and no objects |
| Worlds.DefaultWorldTest | src/world.rs:76-99 | the default world has the white light and contains both listed spheres |
| Worlds.IntersectWorldWithRayTest | src/world.rs:102-112 | the ray from (0, 0, −5) along z meets the default world at t = 4, 4.5, 5.5, 6 |
| Canvases.Canvas.constructor | src/canvas.rs:10-17 | a new canvas has the given size and all pixels (0, 0, 0) |
| Canvases.Canvas.PixelAt | src/canvas.rs:19-21 | the pixel read is one of the canvas's pixels |
| Canvases.Canvas.WritePixel | src/canvas.rs:23-25 | writing sets exactly pixel (x, y), so reading it back gives c and every other pixel is unchanged |
| Canvases.IndexInjective | src/canvas.rs:19-25 | distinct in-range (x, y) pairs have distinct indices x + y·width |
| Canvases.PpmColor | src/canvas.rs:28-37 | a channel maps into 0..255: 0 exactly when 255·x < 0.5, 255 exactly when 255·x ≥ 254.5, otherwise within 0.5 of 255·x |
| Canvases.Round | src/canvas.rs:28-37 | rounding is within 0.5 of the input and goes away from zero on a tie |
| Canvases.SaturateI32 | src/canvas.rs:28-37 | the `as i32` cast leaves every value in the i32 range unchanged and saturates a value outside it at the nearer bound |
| Canvases.PpmColorTest | src/canvas.rs:113-131 | 1.5 → 255, 0.5 → 128, −0.5 → 0, and the other values used in the tests |
| Canvases.Show | src/canvas.rs:39-56 | a number prints as 1 to 11 characters with no space or newline |
| Canvases.ParseShow | src/canvas.rs:39-56 | reading back a printed number gives the number |
| Canvases.ColorsToPpmString | src/canvas.rs:39-56 | the loop builds the wrapped text; no line is longer than 68 characters or starts or ends with a space |
| Canvases.WrapWellFormed | src/canvas.rs:39-56 | the wrapped text has tidy lines, and splitting it on spaces and newlines gives back the input numbers in order |
| Canvases.Canvas.RowValues | src/canvas.rs:62-72 | the numbers of row y are the r, g, b values of its pixels in x order |
| Canvases.RowWords | src/canvas.rs:62-72 | each row emits exactly 3·width numbers, r, g, b of each pixel in x order |
| Canvases.Canvas.ToPpm | src/canvas.rs:27-74 | the loop builds the header followed by each row wrapped on its own |
| Canvases.PpmLines | src/canvas.rs:59-72 | the output's lines are "P3", "width height", "255", then the row lines, then an empty last piece |
| Canvases.PpmEndsWithNewline | src/canvas.rs:59-72 | the output always ends with a newline |
| Canvases.CreatingCanvasTest | src/canvas.rs:82-93 | a 10×20 canvas is black everywhere |
| Canvases.WritingPixelsTest | src/canvas.rs:96-103 | after writing red at (2, 3) the pixel there is red |
| Canvases.PpmHeaderTest | src/canvas.rs:106-110 | the first lines of a 5×3 canvas are "P3", "5 3", "255" |
| Canvases.PpmPixelDataTest | src/canvas.rs:113-131 | lines 4 to 6 of the 5×3 canvas hold the clamped pixel values |
| Canvases.LongLines | src/canvas.rs:134-152 | the rows of a 10×2 canvas of (1, 0.8, 0.6) wrap into the listed lines of 67 and 51 characters |
| Canvases.SplittingLongLinesTest | src/canvas.rs:134-152 | lines 4 to 7 of that canvas's output are the listed wrapped lines |
| Canvases.PpmEndsWithNewlineTest | src/canvas.rs:155-160 | the output of a 5×3 canvas ends with a newline |

## Left out

- Floating point. Every f64 is a real, so rounding error, NaN and infinities are not modelled.
  Divisions that could be by zero are excluded by `requires`. These are a zero-length vector in
  `normalize` and `normal_at`, a zero object-space direction in sphere `intersect`, and a tuple
  divided by 0 in `Tuples.Div` (src/tuple.rs:112-114 accepts 0 and yields infinities or NaN). NaN is what
  would make the `partial_cmp(..).unwrap()` in `World::intersect` panic; with reals the comparison
  is total and the panic is not modelled.
- Tuples.Div: requires `s ≠ 0`. The source's `impl Div<f64>` accepts 0 and yields infinities or
  NaN, which reals cannot represent.
- Matrices.TupleProd / Matrices.Mul / Matrices.At: the panics of the source are excluded by
  `requires`, not modelled. `tuple_prod` asserts `dim == 4` (`Is4Wide`, which also demands the
  sixteen elements it reads). `mul` asserts equal dims (`Multipliable`, which also demands that
  both buffers hold dim·dim elements). `at` panics on an index past the end of the buffer
  (`r·dim + c < |elems|`). A call that would panic has no meaning in the model.
- `sqrt`, `powf`, `sin`, `cos` and `tuple::reflect` are parameters. `tuple::reflect` is not part
  of this model. The tests that need their values take them as `requires`: sqrt(4) = 2,
  pow(1, 200) = 1, sin and cos of an eighth turn equal to some h with h·h = ½, and
  pow(√2/2, 200) below 1e-6.
- `Matrix::inverse` and `transpose` are not part of this model. A sphere stores the inverse of its
  transform and the transpose of that inverse, and `Valid` ties them to the transform. The
  inverse-matrix tests use the closed-form inverse, proved to be the inverse.
- The test `computing_normal_on_transformed_sphere` (`src/sphere.rs:232-242`) is not modelled. It needs the inverse of
  `scaling · rotation_z(π/5)` and floating-point values of π/5, so it has no exact statement here.
- `World::default` builds its light with `PointLight::new`, but `src/lights.rs` only defines
  `point_light`. The model builds the `PointLight` record directly. `PointLight` has no equality
  of its own, so the world test compares the record exactly.
- Worlds.Intersect: the library's stable `sort_by` is specified by a stable insertion sort
  (`SortByT`), not by the library's merge sort. Only the sorted order, the permutation and the
  stability are claimed.
- Canvases.Canvas.PixelAt: `usize` overflow of `x + y·width` is not modelled. The index is
  unbounded and the call requires it to be inside the buffer.
- The `as i32` saturation is modelled (`SaturateI32`); the cast runs before the clamp to 0..255, so the clamp hides its effect.
- Text is `seq<char>`. Rust's `lines()` drops the trailing empty piece after the final newline,
  which the model's line split keeps. The test lemmas state the lines they check by index.
- `to_ppm` and `colors_to_ppm_string` are proved against the text functions `Ppm` and `Wrap`.
  Writing the PPM text to a file or to stdout is I/O and is not modelled.
- Transformations: the rotation tests compute sin and cos from π, `SQRT_2` and the libm
  functions. The model states them only through the `requires` above.
- The camera, the command-line drivers and the private tuple copy in `src/lib.rs` are outside the
  core and are not part of this model.
