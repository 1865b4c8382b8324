/** Surface materials and the Phong lighting of `src/material.rs`, with the point light of
    `src/lights.rs`. `sqrt`, `powf` and `tuple::reflect` are parameters: the model states
    for which laws of those functions each lemma holds. */
module Materials {
  import opened Tuples

  /** `PointLight`: where the light is and the colour it shines. */
  datatype PointLight = PointLight(position: Tuple, intensity: Tuple)

  datatype Material = Material(color: Tuple, ambient: real, diffuse: real, specular: real, shininess: real)

  /** `Material::new`: white, ambient 0.1, diffuse 0.9, specular 0.9, shininess 200. */
  function DefaultMaterial(): Material {
    Material(Color(1.0, 1.0, 1.0), 0.1, 0.9, 0.9, 200.0)
  }

  /** The derived `PartialEq for Material`: the colour compared with the tuple tolerance,
      the four coefficients exactly. */
  predicate MaterialEq(a: Material, b: Material) {
    ApproxEq(a.color, b.color) && a.ambient == b.ambient && a.diffuse == b.diffuse
    && a.specular == b.specular && a.shininess == b.shininess
  }

  /** The law of `tuple::reflect`, which is not part of this model: v − n·2(v·n). */
  ghost predicate IsReflect(reflect: (Tuple, Tuple) -> Tuple) {
    forall v: Tuple, n: Tuple :: reflect(v, n) == Sub(v, Scale(n, 2.0 * Dot(v, n)))
  }

  // ---------------------------------------------------------------- the terms of the Phong sum

  /** The surface colour lit by the light's colour. */
  function EffectiveColor(m: Material, light: PointLight): Tuple {
    Hadamard(m.color, light.intensity)
  }

  /** The light is somewhere else than the lit point, so the direction towards it exists. */
  predicate LightApart(light: PointLight, point: Tuple, sqrt: real -> real) {
    Magnitude(Sub(light.position, point), sqrt) != 0.0
  }

  /** The unit direction from the point towards the light. */
  function LightVector(light: PointLight, point: Tuple, sqrt: real -> real): Tuple
    requires LightApart(light, point, sqrt)
  {
    Normalize(Sub(light.position, point), sqrt)
  }

  /** Cosine of the angle between the light direction and the normal. */
  function LightDotNormal(light: PointLight, point: Tuple, normalv: Tuple, sqrt: real -> real): real
    requires LightApart(light, point, sqrt)
  {
    Dot(LightVector(light, point, sqrt), normalv)
  }

  /** Cosine of the angle between the reflected light and the eye. */
  function ReflectDotEye(light: PointLight, point: Tuple, eyev: Tuple, normalv: Tuple,
                         sqrt: real -> real, reflect: (Tuple, Tuple) -> Tuple): real
    requires LightApart(light, point, sqrt)
  {
    Dot(reflect(Neg(LightVector(light, point, sqrt)), normalv), eyev)
  }

  function AmbientTerm(m: Material, light: PointLight): Tuple {
    Scale(EffectiveColor(m, light), m.ambient)
  }

  function DiffuseTerm(m: Material, light: PointLight, ldotn: real): Tuple {
    Scale(Scale(EffectiveColor(m, light), m.diffuse), ldotn)
  }

  /** The highlight takes the light's colour, not the surface's. */
  function SpecularTerm(m: Material, light: PointLight, factor: real): Tuple {
    Scale(Scale(light.intensity, m.specular), factor)
  }

  /** `Material::lightning`: ambient plus diffuse plus specular, the last two cut off when the
      light is behind the surface and the specular also when the reflection turns from the eye. */
  function Lighting(m: Material, light: PointLight, point: Tuple, eyev: Tuple, normalv: Tuple,
                    sqrt: real -> real, pow: (real, real) -> real,
                    reflect: (Tuple, Tuple) -> Tuple): (r: Tuple)
    requires LightApart(light, point, sqrt)
    ensures LightDotNormal(light, point, normalv, sqrt) < 0.0 ==> r == AmbientTerm(m, light)
    ensures var ldotn := LightDotNormal(light, point, normalv, sqrt);
      0.0 <= ldotn && ReflectDotEye(light, point, eyev, normalv, sqrt, reflect) <= 0.0
      ==> r == Add(AmbientTerm(m, light), DiffuseTerm(m, light, ldotn))
    ensures var ldotn := LightDotNormal(light, point, normalv, sqrt);
      var rdote := ReflectDotEye(light, point, eyev, normalv, sqrt, reflect);
      0.0 <= ldotn && 0.0 < rdote
      ==> r == Add(Add(AmbientTerm(m, light), DiffuseTerm(m, light, ldotn)),
                   SpecularTerm(m, light, pow(rdote, m.shininess)))
  {
    var ambient := AmbientTerm(m, light);
    var ldotn := LightDotNormal(light, point, normalv, sqrt);
    var (diffuse, specular) :=
      if ldotn < 0.0 then
        (Black, Black)
      else
        var rdote := ReflectDotEye(light, point, eyev, normalv, sqrt, reflect);
        (DiffuseTerm(m, light, ldotn),
         if rdote <= 0.0 then Black else SpecularTerm(m, light, pow(rdote, m.shininess)));
    Add(Add(ambient, diffuse), specular)
  }

  // ---------------------------------------------------------------- properties of the sum

  /** A colour with no negative channel. */
  predicate NonNegative(c: Tuple) {
    0.0 <= c.x && 0.0 <= c.y && 0.0 <= c.z
  }

  /** Each of red, green and blue is at least the other colour's. */
  predicate AtLeast(c: Tuple, d: Tuple) {
    d.x <= c.x && d.y <= c.y && d.z <= c.z
  }

  lemma ScaleNonNegative(c: Tuple, s: real)
    requires NonNegative(c) && 0.0 <= s
    ensures NonNegative(Scale(c, s))
  {
    assert 0.0 <= c.x * s && 0.0 <= c.y * s && 0.0 <= c.z * s;
  }

  /** The ambient term is always part of the result: with no negative colour, coefficient or
      power, lighting never drops below it. */
  lemma LightingAtLeastAmbient(m: Material, light: PointLight, point: Tuple, eyev: Tuple, normalv: Tuple,
                               sqrt: real -> real, pow: (real, real) -> real,
                               reflect: (Tuple, Tuple) -> Tuple)
    requires LightApart(light, point, sqrt)
    requires NonNegative(m.color) && NonNegative(light.intensity)
    requires 0.0 <= m.ambient && 0.0 <= m.diffuse && 0.0 <= m.specular
    requires forall x: real, e: real :: 0.0 < x ==> 0.0 <= pow(x, e)
    ensures AtLeast(Lighting(m, light, point, eyev, normalv, sqrt, pow, reflect), AmbientTerm(m, light))
  {
    var ldotn := LightDotNormal(light, point, normalv, sqrt);
    var rdote := ReflectDotEye(light, point, eyev, normalv, sqrt, reflect);
    var e := EffectiveColor(m, light);
    assert NonNegative(e) by {
      assert 0.0 <= m.color.x * light.intensity.x;
      assert 0.0 <= m.color.y * light.intensity.y;
      assert 0.0 <= m.color.z * light.intensity.z;
    }
    if 0.0 <= ldotn {
      ScaleNonNegative(e, m.diffuse);
      ScaleNonNegative(Scale(e, m.diffuse), ldotn);
      if 0.0 < rdote {
        ScaleNonNegative(light.intensity, m.specular);
        ScaleNonNegative(Scale(light.intensity, m.specular), pow(rdote, m.shininess));
      }
    }
  }

  /** A black surface still shows the highlight: only the specular term survives, and it is the
      light's colour scaled, independent of the surface colour. */
  lemma BlackSurfaceHighlight(m: Material, light: PointLight, point: Tuple, eyev: Tuple, normalv: Tuple,
                              sqrt: real -> real, pow: (real, real) -> real,
                              reflect: (Tuple, Tuple) -> Tuple)
    requires LightApart(light, point, sqrt) && m.color == Black
    requires 0.0 <= LightDotNormal(light, point, normalv, sqrt)
    requires 0.0 < ReflectDotEye(light, point, eyev, normalv, sqrt, reflect)
    ensures Lighting(m, light, point, eyev, normalv, sqrt, pow, reflect)
         == SpecularTerm(m, light, pow(ReflectDotEye(light, point, eyev, normalv, sqrt, reflect), m.shininess))
  {}

  // ---------------------------------------------------------------- the unit tests' values

  /** A point light keeps the position and intensity it is built from. */
  lemma PointLightHasPositionAndIntensityTest()
    ensures PointLight(Point(0.0, 0.0, 0.0), Color(1.0, 1.0, 1.0)).position == Point(0.0, 0.0, 0.0)
    ensures PointLight(Point(0.0, 0.0, 0.0), Color(1.0, 1.0, 1.0)).intensity == Color(1.0, 1.0, 1.0)
  {}

  lemma DefaultMaterialTest()
    ensures DefaultMaterial().color == Color(1.0, 1.0, 1.0)
    ensures DefaultMaterial().ambient == 0.1 && DefaultMaterial().diffuse == 0.9
    ensures DefaultMaterial().specular == 0.9 && DefaultMaterial().shininess == 200.0
  {}

  /** Normalizing (0, 0, d) gives (0, 0, ±1). */
  lemma AxialNormalize(d: real, sqrt: real -> real)
    requires d != 0.0 && sqrt(d * d) == Abs(d)
    ensures Magnitude(Vector(0.0, 0.0, d), sqrt) == Abs(d)
    ensures Normalize(Vector(0.0, 0.0, d), sqrt) == Vector(0.0, 0.0, if d < 0.0 then -1.0 else 1.0)
  {
    assert SquaredLength(Vector(0.0, 0.0, d)) == d * d;
    SignOverAbs(d);
    assert 0.0 / Abs(d) == 0.0;
  }

  /** d / |d| is the sign of d. */
  lemma SignOverAbs(d: real)
    requires d != 0.0
    ensures d / Abs(d) == if d < 0.0 then -1.0 else 1.0
  {
    if d < 0.0 {
      assert Abs(d) == -d;
      NegOverSelf(-d);
    } else {
      assert Abs(d) == d;
    }
  }

  lemma NegOverSelf(k: real)
    requires 0.0 < k
    ensures (-k) / k == -1.0
  {}

  /** A light straight along the z axis from the point, at signed distance d, is seen in
      direction (0, 0, ±1). */
  lemma AxialLightVector(light: PointLight, point: Tuple, sqrt: real -> real, d: real)
    requires d != 0.0 && sqrt(d * d) == Abs(d) && Sub(light.position, point) == Vector(0.0, 0.0, d)
    ensures LightApart(light, point, sqrt)
    ensures LightVector(light, point, sqrt) == Vector(0.0, 0.0, if d < 0.0 then -1.0 else 1.0)
  {
    AxialNormalize(d, sqrt);
  }

  /** The default material under a white light has ambient term 0.1. */
  lemma DefaultAmbientWhite(position: Tuple)
    ensures AmbientTerm(DefaultMaterial(), PointLight(position, Color(1.0, 1.0, 1.0))) == Color(0.1, 0.1, 0.1)
  {}

  /** The default material under a white light has diffuse term 0.9 times the cosine. */
  lemma DefaultDiffuseWhite(position: Tuple, ldotn: real)
    ensures DiffuseTerm(DefaultMaterial(), PointLight(position, Color(1.0, 1.0, 1.0)), ldotn)
         == Color(0.9 * ldotn, 0.9 * ldotn, 0.9 * ldotn)
  {
    var white := Color(1.0, 1.0, 1.0);
    var light := PointLight(position, white);
    assert EffectiveColor(DefaultMaterial(), light) == white;
    assert Scale(white, 0.9) == Color(0.9, 0.9, 0.9);
    ScaleNinetenths(ldotn);
  }

  lemma ScaleNinetenths(s: real)
    ensures Scale(Color(0.9, 0.9, 0.9), s) == Color(0.9 * s, 0.9 * s, 0.9 * s)
  {}

  /** The default material's highlight under a white light is 0.9 times the factor. */
  lemma DefaultSpecularWhite(position: Tuple, factor: real)
    ensures SpecularTerm(DefaultMaterial(), PointLight(position, Color(1.0, 1.0, 1.0)), factor)
         == Color(0.9 * factor, 0.9 * factor, 0.9 * factor)
  {
    assert Scale(Color(1.0, 1.0, 1.0), 0.9) == Color(0.9, 0.9, 0.9);
  }

  /** Reflecting (0, 0, 1) about the normal (0, 0, -1) sends it straight back. */
  lemma ReflectAxial(reflect: (Tuple, Tuple) -> Tuple)
    requires IsReflect(reflect)
    ensures reflect(Vector(0.0, 0.0, 1.0), Vector(0.0, 0.0, -1.0)) == Vector(0.0, 0.0, -1.0)
  {
    var u, n := Vector(0.0, 0.0, 1.0), Vector(0.0, 0.0, -1.0);
    assert Dot(u, n) == -1.0;
    assert reflect(u, n) == Sub(u, Scale(n, 2.0 * Dot(u, n)));
  }

  /** A point at height d on the z axis seen from the origin. */
  lemma OffsetOnZ(position: Tuple, point: Tuple, d: real)
    requires position == Point(0.0, 0.0, d) && point == Point(0.0, 0.0, 0.0)
    ensures Sub(position, point) == Vector(0.0, 0.0, d)
  {}

  /** A light at distance 10 along the z axis of the point, on the side the normal points to,
      with the eye looking straight back along the normal. */
  lemma LightInFrontValues(sqrt: real -> real, reflect: (Tuple, Tuple) -> Tuple,
                           light: PointLight, point: Tuple, v: Tuple)
    requires sqrt(100.0) == 10.0 && IsReflect(reflect)
    requires Sub(light.position, point) == Vector(0.0, 0.0, -10.0) && v == Vector(0.0, 0.0, -1.0)
    ensures LightApart(light, point, sqrt)
    ensures LightDotNormal(light, point, v, sqrt) == 1.0
    ensures ReflectDotEye(light, point, v, v, sqrt, reflect) == 1.0
  {
    LiteralSlots(0.0, 0.0, -1.0);
    LiteralSlots(0.0, 0.0, 1.0);
    AxialLightVector(light, point, sqrt, -10.0);
    assert Dot(v, v) == 1.0;
    ReflectAxial(reflect);
    assert Neg(v) == Vector(0.0, 0.0, 1.0);
  }

  /** Eye between the light and the surface: full diffuse and full highlight, 0.1 + 0.9 + 0.9. */
  lemma EyeBetweenLightAndSurfaceTest(sqrt: real -> real, pow: (real, real) -> real,
                                      reflect: (Tuple, Tuple) -> Tuple,
                                      light: PointLight, point: Tuple, v: Tuple)
    requires sqrt(100.0) == 10.0 && IsReflect(reflect) && pow(1.0, 200.0) == 1.0
    requires light == PointLight(Point(0.0, 0.0, -10.0), Color(1.0, 1.0, 1.0))
    requires point == Point(0.0, 0.0, 0.0) && v == Vector(0.0, 0.0, -1.0)
    ensures LightApart(light, point, sqrt)
    ensures Lighting(DefaultMaterial(), light, point, v, v, sqrt, pow, reflect) == Color(1.9, 1.9, 1.9)
  {
    OffsetOnZ(light.position, point, -10.0);
    LightInFrontValues(sqrt, reflect, light, point, v);
    FullLightSum(light.position);
  }

  /** Ambient, full diffuse and full highlight of the default material under a white light. */
  lemma FullLightSum(position: Tuple)
    ensures var m, light := DefaultMaterial(), PointLight(position, Color(1.0, 1.0, 1.0));
      Add(Add(AmbientTerm(m, light), DiffuseTerm(m, light, 1.0)), SpecularTerm(m, light, 1.0))
      == Color(1.9, 1.9, 1.9)
  {
    DefaultAmbientWhite(position);
    DefaultDiffuseWhite(position, 1.0);
    DefaultSpecularWhite(position, 1.0);
  }

  /** A light at distance 10 along the z axis of the point, on the side the normal points away from. */
  lemma LightBehindValues(sqrt: real -> real, light: PointLight, point: Tuple, normalv: Tuple)
    requires sqrt(100.0) == 10.0
    requires Sub(light.position, point) == Vector(0.0, 0.0, 10.0) && normalv == Vector(0.0, 0.0, -1.0)
    ensures LightApart(light, point, sqrt)
    ensures LightDotNormal(light, point, normalv, sqrt) == -1.0
  {
    AxialLightVector(light, point, sqrt, 10.0);
    assert Dot(Vector(0.0, 0.0, 1.0), Vector(0.0, 0.0, -1.0)) == -1.0;
  }

  /** Light behind the surface: only the ambient 0.1 remains. */
  lemma LightBehindSurfaceTest(sqrt: real -> real, pow: (real, real) -> real,
                               reflect: (Tuple, Tuple) -> Tuple,
                               light: PointLight, point: Tuple, v: Tuple)
    requires sqrt(100.0) == 10.0
    requires light == PointLight(Point(0.0, 0.0, 10.0), Color(1.0, 1.0, 1.0))
    requires point == Point(0.0, 0.0, 0.0) && v == Vector(0.0, 0.0, -1.0)
    ensures LightApart(light, point, sqrt)
    ensures Lighting(DefaultMaterial(), light, point, v, v, sqrt, pow, reflect) == Color(0.1, 0.1, 0.1)
  {
    OffsetOnZ(light.position, point, 10.0);
    LightBehindValues(sqrt, light, point, v);
    DefaultAmbientWhite(light.position);
  }

  // The two tests with the light at (0, 10, −10), 45° off the normal (0, 0, −1).

  /** u = 10/√200 = √2/2 is the cosine of 45°; its square is one half. */
  lemma HalfRootBounds(u: real)
    requires 0.0 < u && u * u == 0.5
    ensures 0.707106 < u < 0.707107
  {
  }

  /** 10 over the root of 200 squares to one half. */
  lemma TenOverRoot(k: real)
    requires 0.0 < k && k * k == 200.0
    ensures (10.0 / k) * (10.0 / k) == 0.5
  {
    var u := 10.0 / k;
    assert u * k == 10.0;
    assert (u * u) * (k * k) == (u * k) * (u * k);
  }

  /** The reflection (0, −u, −u) against the eye (0, 0, −1). */
  lemma ReflectionAlongNormal(u: real)
    ensures Dot(Vector(0.0, -u, -u), Vector(0.0, 0.0, -1.0)) == u
  {}

  /** The cosine of 45° as the model computes it, 10/√200, lies within 10⁻⁶ of √2/2. */
  lemma DiagonalCosine(sqrt: real -> real)
    requires IsSqrt(sqrt)
    ensures 0.0 < sqrt(200.0) && 0.707106 < 10.0 / sqrt(200.0) < 0.707107
  {
    var k := sqrt(200.0);
    assert 0.0 <= k && k * k == 200.0;
    TenOverRoot(k);
    HalfRootBounds(10.0 / k);
  }

  /** Normalizing (0, 10, −10) gives (0, u, −u) with u = 10/√200. */
  lemma DiagonalLightVector(light: PointLight, point: Tuple, sqrt: real -> real)
    requires IsSqrt(sqrt) && Sub(light.position, point) == Vector(0.0, 10.0, -10.0)
    ensures 0.0 < sqrt(200.0)
    ensures LightApart(light, point, sqrt)
    ensures LightVector(light, point, sqrt) == Vector(0.0, 10.0 / sqrt(200.0), -(10.0 / sqrt(200.0)))
  {
    assert SquaredLength(Vector(0.0, 10.0, -10.0)) == 200.0;
    var k := sqrt(200.0);
    assert 0.0 <= k && k * k == 200.0;
    assert -10.0 / k == -(10.0 / k);
  }

  /** Reflecting the reversed light direction (0, −u, u) about (0, 0, −1) gives (0, −u, −u). */
  lemma DiagonalReflection(reflect: (Tuple, Tuple) -> Tuple, u: real)
    requires IsReflect(reflect)
    ensures reflect(Neg(Vector(0.0, u, -u)), Vector(0.0, 0.0, -1.0)) == Vector(0.0, -u, -u)
  {
    var v, n := Neg(Vector(0.0, u, -u)), Vector(0.0, 0.0, -1.0);
    assert v == Vector(0.0, -u, u);
    assert Dot(v, n) == -u;
    assert reflect(v, n) == Sub(v, Scale(n, 2.0 * Dot(v, n)));
  }

  /** The cosines of the 45° tests: the light makes u with the normal, and the reflection
      is (0, −u, −u) dotted with the eye. */
  lemma DiagonalLightValues(sqrt: real -> real, reflect: (Tuple, Tuple) -> Tuple,
                            light: PointLight, point: Tuple, eyev: Tuple, normalv: Tuple)
    requires IsSqrt(sqrt) && IsReflect(reflect)
    requires Sub(light.position, point) == Vector(0.0, 10.0, -10.0) && normalv == Vector(0.0, 0.0, -1.0)
    ensures 0.0 < sqrt(200.0) && LightApart(light, point, sqrt)
    ensures var u := 10.0 / sqrt(200.0);
      LightDotNormal(light, point, normalv, sqrt) == u
      && ReflectDotEye(light, point, eyev, normalv, sqrt, reflect) == Dot(Vector(0.0, -u, -u), eyev)
  {
    DiagonalLightVector(light, point, sqrt);
    var u := 10.0 / sqrt(200.0);
    DiagonalReflection(reflect, u);
  }

  /** Ambient, diffuse at cosine u and a highlight of factor f, for the default material
      under a white light, as three greys. */
  lemma DefaultLightTerms(position: Tuple, u: real, f: real)
    ensures var m, light := DefaultMaterial(), PointLight(position, Color(1.0, 1.0, 1.0));
      Add(Add(AmbientTerm(m, light), DiffuseTerm(m, light, u)), SpecularTerm(m, light, f))
      == Add(Add(Color(0.1, 0.1, 0.1), Color(0.9 * u, 0.9 * u, 0.9 * u)), Color(0.9 * f, 0.9 * f, 0.9 * f))
  {
    DefaultAmbientWhite(position);
    DefaultDiffuseWhite(position, u);
    DefaultSpecularWhite(position, f);
  }

  /** The same sum as one grey of level 0.1 + 0.9·u + 0.9·f. */
  lemma DefaultLightSum(position: Tuple, u: real, f: real)
    ensures var m, light := DefaultMaterial(), PointLight(position, Color(1.0, 1.0, 1.0));
      Add(Add(AmbientTerm(m, light), DiffuseTerm(m, light, u)), SpecularTerm(m, light, f))
      == Color(0.1 + 0.9 * u + 0.9 * f, 0.1 + 0.9 * u + 0.9 * f, 0.1 + 0.9 * u + 0.9 * f)
  {
    var m, light := DefaultMaterial(), PointLight(position, Color(1.0, 1.0, 1.0));
    DefaultLightTerms(position, u, f);
    DefaultGreySum(Add(Add(AmbientTerm(m, light), DiffuseTerm(m, light, u)), SpecularTerm(m, light, f)), u, f);
  }

  /** The three greys of the default material add channel by channel. */
  lemma DefaultGreySum(sum: Tuple, u: real, f: real)
    requires sum == Add(Add(Color(0.1, 0.1, 0.1), Color(0.9 * u, 0.9 * u, 0.9 * u)), Color(0.9 * f, 0.9 * f, 0.9 * f))
    ensures sum == Color(0.1 + 0.9 * u + 0.9 * f, 0.1 + 0.9 * u + 0.9 * f, 0.1 + 0.9 * u + 0.9 * f)
  {}

  /** Lighting on the lit side with the reflection towards the eye is the full Phong sum. */
  lemma LitSum(m: Material, light: PointLight, point: Tuple, eyev: Tuple, normalv: Tuple,
               sqrt: real -> real, pow: (real, real) -> real,
               reflect: (Tuple, Tuple) -> Tuple, u: real, rd: real)
    requires LightApart(light, point, sqrt)
    requires LightDotNormal(light, point, normalv, sqrt) == u && 0.0 <= u
    requires ReflectDotEye(light, point, eyev, normalv, sqrt, reflect) == rd && 0.0 < rd
    ensures Lighting(m, light, point, eyev, normalv, sqrt, pow, reflect)
         == Add(Add(AmbientTerm(m, light), DiffuseTerm(m, light, u)), SpecularTerm(m, light, pow(rd, m.shininess)))
  {}

  /** The lighting of the default material under a white light whose cosines are u with the
      normal and rd between reflection and eye, both on the lit side. */
  lemma DefaultLighting(light: PointLight, point: Tuple, eyev: Tuple, normalv: Tuple,
                        sqrt: real -> real, pow: (real, real) -> real,
                        reflect: (Tuple, Tuple) -> Tuple, u: real, rd: real)
    requires light.intensity == Color(1.0, 1.0, 1.0) && LightApart(light, point, sqrt)
    requires LightDotNormal(light, point, normalv, sqrt) == u && 0.0 <= u
    requires ReflectDotEye(light, point, eyev, normalv, sqrt, reflect) == rd && 0.0 < rd
    ensures var f := pow(rd, 200.0);
      Lighting(DefaultMaterial(), light, point, eyev, normalv, sqrt, pow, reflect)
      == Color(0.1 + 0.9 * u + 0.9 * f, 0.1 + 0.9 * u + 0.9 * f, 0.1 + 0.9 * u + 0.9 * f)
  {
    LitSum(DefaultMaterial(), light, point, eyev, normalv, sqrt, pow, reflect, u, rd);
    WhiteLightSum(light, u, pow(rd, 200.0));
  }

  lemma WhiteLightSum(light: PointLight, u: real, f: real)
    requires light.intensity == Color(1.0, 1.0, 1.0)
    ensures var m := DefaultMaterial();
      Add(Add(AmbientTerm(m, light), DiffuseTerm(m, light, u)), SpecularTerm(m, light, f))
      == Color(0.1 + 0.9 * u + 0.9 * f, 0.1 + 0.9 * u + 0.9 * f, 0.1 + 0.9 * u + 0.9 * f)
  {
    assert light == PointLight(light.position, Color(1.0, 1.0, 1.0));
    DefaultLightSum(light.position, u, f);
  }

  /** The default-material lighting of DefaultLighting lies within the tuple tolerance of the
      grey g when its level is within 0.000005 of g. */
  lemma DefaultLightingNear(light: PointLight, point: Tuple, eyev: Tuple, normalv: Tuple,
                            sqrt: real -> real, pow: (real, real) -> real,
                            reflect: (Tuple, Tuple) -> Tuple, u: real, rd: real, g: real)
    requires light.intensity == Color(1.0, 1.0, 1.0) && LightApart(light, point, sqrt)
    requires LightDotNormal(light, point, normalv, sqrt) == u && 0.0 <= u
    requires ReflectDotEye(light, point, eyev, normalv, sqrt, reflect) == rd && 0.0 < rd
    requires -0.000005 < 0.1 + 0.9 * u + 0.9 * pow(rd, 200.0) - g < 0.000005
    ensures ApproxEq(Lighting(DefaultMaterial(), light, point, eyev, normalv, sqrt, pow, reflect), Color(g, g, g))
  {
    DefaultLighting(light, point, eyev, normalv, sqrt, pow, reflect, u, rd);
    GreyClose(0.1 + 0.9 * u + 0.9 * pow(rd, 200.0), g);
  }

  /** A grey whose level is within 0.000005 of g equals the grey g under the tuple tolerance. */
  lemma GreyClose(a: real, g: real)
    requires -0.000005 < a - g < 0.000005
    ensures ApproxEq(Color(a, a, a), Color(g, g, g))
  {}

  /** Eye opposite the surface, light 45° off: 0.1 + 0.9·√2/2 and a highlight of the 200th
      power of √2/2, which f64 `powf` makes smaller than 10⁻⁶. */
  lemma EyeOppositeSurfaceLightOffset45Test(sqrt: real -> real, pow: (real, real) -> real,
                                            reflect: (Tuple, Tuple) -> Tuple,
                                            light: PointLight, point: Tuple, v: Tuple)
    requires IsSqrt(sqrt) && IsReflect(reflect)
    requires 0.0 <= pow(10.0 / sqrt(200.0), 200.0) < 0.000001
    requires light == PointLight(Point(0.0, 10.0, -10.0), Color(1.0, 1.0, 1.0))
    requires point == Point(0.0, 0.0, 0.0) && v == Vector(0.0, 0.0, -1.0)
    ensures LightApart(light, point, sqrt)
    ensures ApproxEq(Lighting(DefaultMaterial(), light, point, v, v, sqrt, pow, reflect), Color(0.7364, 0.7364, 0.7364))
  {
    DiagonalLightValues(sqrt, reflect, light, point, v, v);
    DiagonalCosine(sqrt);
    var u := 10.0 / sqrt(200.0);
    ReflectionAlongNormal(u);
    Offset45Level(u, pow(u, 200.0));
    DefaultLightingNear(light, point, v, v, sqrt, pow, reflect, u, u, 0.7364);
  }

  /** The offset-45° grey level, from the bounds on √2/2 and on its 200th power. */
  lemma Offset45Level(u: real, f: real)
    requires 0.707106 < u < 0.707107 && 0.0 <= f < 0.000001
    ensures -0.000005 < 0.1 + 0.9 * u + 0.9 * f - 0.7364 < 0.000005
  {}

  /** Eye in the path of the reflection: 0.1 + 0.9·√2/2 + 0.9. */
  lemma EyeInPathOfReflectionTest(sqrt: real -> real, pow: (real, real) -> real,
                                  reflect: (Tuple, Tuple) -> Tuple,
                                  light: PointLight, point: Tuple, eyev: Tuple, normalv: Tuple)
    requires IsSqrt(sqrt) && IsReflect(reflect) && pow(1.0, 200.0) == 1.0
    requires light == PointLight(Point(0.0, 10.0, -10.0), Color(1.0, 1.0, 1.0))
    requires point == Point(0.0, 0.0, 0.0) && normalv == Vector(0.0, 0.0, -1.0)
    requires eyev == Vector(0.0, -sqrt(2.0) / 2.0, -sqrt(2.0) / 2.0)
    ensures LightApart(light, point, sqrt)
    ensures ApproxEq(Lighting(DefaultMaterial(), light, point, eyev, normalv, sqrt, pow, reflect),
                     Color(1.6364, 1.6364, 1.6364))
  {
    DiagonalLightValues(sqrt, reflect, light, point, eyev, normalv);
    DiagonalCosine(sqrt);
    var u := 10.0 / sqrt(200.0);
    PathCosine(sqrt, u);
    PathLevel(u);
    DefaultLightingNear(light, point, eyev, normalv, sqrt, pow, reflect, u, 1.0, 1.6364);
  }

  /** With the eye at (0, −√2/2, −√2/2) the reflection (0, −u, −u) points straight at it. */
  lemma PathCosine(sqrt: real -> real, u: real)
    requires IsSqrt(sqrt) && u == 10.0 / sqrt(200.0)
    ensures Dot(Vector(0.0, -u, -u), Vector(0.0, -sqrt(2.0) / 2.0, -sqrt(2.0) / 2.0)) == 1.0
  {
    var k, s := sqrt(200.0), sqrt(2.0);
    assert 0.0 <= s && s * s == 2.0;
    SqrtOf(sqrt, 200.0, 10.0 * s);
    assert u * s == 1.0;
  }

  /** The reflection-path grey level, from the bounds on √2/2 and a full highlight. */
  lemma PathLevel(u: real)
    requires 0.707106 < u < 0.707107
    ensures -0.000005 < 0.1 + 0.9 * u + 0.9 * 1.0 - 1.6364 < 0.000005
  {}
}
