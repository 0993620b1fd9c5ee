/** `Material` of src/material/mod.rs: the preset table, the checkerboard colour rule,
    mirror reflection, the local frame around a normal, the three samplers and
    `scatter`, which turns a sample into the bounced ray.

    The samplers draw two numbers from the random-number generator and feed them
    through `sin`, `cos` and `sqrt`. Here the two draws, uniform in `[0, 1)`, are
    parameters, and so are the three scalar functions, constrained by `IsSqrt` and
    `IsSinCos`. */
module Materials {
  import opened Prelude
  import opened VectorConstGenerics
  import opened Matrices
  import opened Rays
  import Objects

  datatype Material = Material(albedo: Float3, reflectivity: real, checkered: bool)

  /** `PI`, the double-precision value of π; the model's reals take this decimal. */
  const PI: real := 3.141592653589793

  /** The identity `sin² x + cos² x = 1`, all this model needs of the two functions. */
  ghost predicate IsSinCos(sin: real -> real, cos: real -> real)
  {
    forall x :: sin(x) * sin(x) + cos(x) * cos(x) == 1.0
  }

  // ---------------------------------------------------------------------------
  // The local frame around a normal
  // ---------------------------------------------------------------------------

  /** The helper axis: `(0, 1, 0)` when `|w.x| > 0.9`, otherwise `(1, 0, 0)`. */
  function HelperAxis(w: Float3): (a: Float3)
    ensures Abs(w[0]) > 0.9 <==> a == [0.0, 1.0, 0.0]
    ensures Abs(w[0]) <= 0.9 <==> a == [1.0, 0.0, 0.0]
  {
    if Abs(w[0]) > 0.9 then [0.0, 1.0, 0.0] else [1.0, 0.0, 0.0]
  }

  /** `generate_coordinate_system`: `u = normalize(w × a)` and `v = w × u`, returned as
      `(u, v)`. Both are orthogonal to the normal and to each other. */
  function CoordinateSystem(w: Float3, sqrt: real -> real): (r: (Float3, Float3))
    requires IsSqrt(sqrt)
    ensures Dot(r.0, w) == 0.0 && Dot(r.1, w) == 0.0 && Dot(r.1, r.0) == 0.0
  {
    var c := Cross(w, HelperAxis(w));
    var u := Normalize(c, sqrt);
    CrossOrthogonal(w, HelperAxis(w));
    DotSymmetric(c, w);
    NormalizeKeepsDotSign(w, c, sqrt);
    DotSymmetric(w, u);
    CrossOrthogonal(w, u);
    (u, Cross(w, u))
  }

  /** For a unit normal the helper axis is never parallel to it, so `w × a` is not the
      zero vector and the first axis of the frame is a true direction. */
  lemma {:induction false} HelperAxisNotParallel(w: Float3)
    requires Dot(w, w) == 1.0
    ensures Cross(w, HelperAxis(w)) != [0.0, 0.0, 0.0]
  {
    if Abs(w[0]) <= 0.9 && Cross(w, HelperAxis(w)) == [0.0, 0.0, 0.0] {
      assert w[1] == 0.0 && w[2] == 0.0;
      Dot3(w, w);
      SquareBelow(w[0], 0.9);
      assert false;
    }
  }

  /** `|x| <= b` bounds `x²` by `b²`. */
  lemma {:induction false} SquareBelow(x: real, b: real)
    requires Abs(x) <= b
    ensures x * x <= b * b
  {
    var y := Abs(x);
    assert x * x == y * y;
    MultiplyOrder(y, b, y);
    MultiplyOrder(y, b, b);
  }

  /** `new_from_columns([u, normal, v]) * local` with `(v, u)` the frame of the normal:
      the local sample's middle component runs along the normal. */
  function FromLocal(normal: Float3, local: Float3, sqrt: real -> real): (r: Float3)
    requires IsSqrt(sqrt)
  {
    var (v, u) := CoordinateSystem(normal, sqrt);
    FromColumnsShape([u, normal, v], 3);
    MatVec(FromColumns([u, normal, v], 3), local)
  }

  /** The height of the transformed sample above the tangent plane is its local middle
      component: `sample · normal = local[1] · |normal|²`. */
  lemma {:induction false} FromLocalHeight(normal: Float3, local: Float3, sqrt: real -> real)
    requires IsSqrt(sqrt)
    ensures Dot(FromLocal(normal, local, sqrt), normal) == local[1] * Dot(normal, normal)
  {
    var (v, u) := CoordinateSystem(normal, sqrt);
    FromColumnsTimesVector(u, normal, v, local);
    var su, sn, sv := Scale(u, local[0]), Scale(normal, local[1]), Scale(v, local[2]);
    DotPlus(Plus(su, sn), sv, normal);
    DotPlus(su, sn, normal);
    DotScale(u, normal, local[0]);
    DotScale(normal, normal, local[1]);
    DotScale(v, normal, local[2]);
  }

  // ---------------------------------------------------------------------------
  // The samplers, with their draws as inputs
  // ---------------------------------------------------------------------------

  datatype SamplingFunctions = RandomUnitVector | CosineWeightedSample1 | CosineWeightedSample2

  /** The draws of `random_range(0.0..1.0)`. */
  predicate UnitDraw(r: real)
  {
    0.0 <= r < 1.0
  }

  /** The pdf of the uniform sphere sampler, `1 / (4π)`. */
  function UniformPdf(): (p: real)
    ensures p > 0.0 && 4.0 * PI * p == 1.0
  {
    1.0 / (4.0 * PI)
  }

  /** The pdf of the cosine samplers, `cos θ / π`. */
  function CosinePdf(cosTheta: real): (p: real)
    ensures p * PI == cosTheta
    ensures cosTheta >= 0.0 ==> p >= 0.0
  {
    cosTheta / PI
  }

  /** `random_unit_vector`, with `θ = π·r1` and `φ = 2π·r2` the draws of
      `random_range(0..π)` and `random_range(0..2π)`: the point
      `(sin θ cos φ, sin θ sin φ, cos θ)` of the unit sphere. */
  function RandomUnitVectorSample(r1: real, r2: real, sin: real -> real, cos: real -> real)
    : (r: (Float3, real))
    requires IsSinCos(sin, cos)
    ensures Dot(r.0, r.0) == 1.0
    ensures r.1 == UniformPdf()
  {
    var theta, phi := PI * r1, 2.0 * PI * r2;
    var v := [sin(theta) * cos(phi), sin(theta) * sin(phi), cos(theta)];
    Dot3(v, v);
    SphericalUnit(sin(theta), cos(theta), sin(phi), cos(phi));
    (v, UniformPdf())
  }

  lemma {:induction false} SphericalUnit(st: real, ct: real, sp: real, cp: real)
    requires st * st + ct * ct == 1.0 && sp * sp + cp * cp == 1.0
    ensures (st * cp) * (st * cp) + (st * sp) * (st * sp) + ct * ct == 1.0
  {
    assert (st * cp) * (st * cp) + (st * sp) * (st * sp) == (st * st) * (sp * sp + cp * cp);
  }

  /** The local sample of `cosine_weighted_sample_1`: `r = √r2`, `φ = 2π·r1`,
      `(r cos φ, √(1 - r2), r sin φ)`. */
  function CosineLocal1(r1: real, r2: real, sin: real -> real, cos: real -> real,
                        sqrt: real -> real): (l: Float3)
    requires IsSinCos(sin, cos) && IsSqrt(sqrt) && UnitDraw(r1) && UnitDraw(r2)
    ensures Dot(l, l) == 1.0 && l[1] >= 0.0
  {
    var phi := 2.0 * PI * r1;
    var r := sqrt(r2);
    var l := [r * cos(phi), sqrt(1.0 - r2), r * sin(phi)];
    Dot3(l, l);
    DiscUnit(r, sqrt(1.0 - r2), sin(phi), cos(phi), r2);
    l
  }

  lemma {:induction false} DiscUnit(r: real, y: real, s: real, c: real, r2: real)
    requires r * r == r2 && y * y == 1.0 - r2 && s * s + c * c == 1.0
    ensures (r * c) * (r * c) + y * y + (r * s) * (r * s) == 1.0
  {
    assert (r * c) * (r * c) + (r * s) * (r * s) == (r * r) * (s * s + c * c);
  }

  /** The local sample of `cosine_weighted_sample_2`: `cos θ = √r1`,
      `sin θ = √(1 - cos² θ)`, `φ = 2π·r2`, `(sin θ cos φ, cos θ, sin θ sin φ)`. */
  function CosineLocal2(r1: real, r2: real, sin: real -> real, cos: real -> real,
                        sqrt: real -> real): (l: Float3)
    requires IsSinCos(sin, cos) && IsSqrt(sqrt) && UnitDraw(r1) && UnitDraw(r2)
    ensures Dot(l, l) == 1.0 && l[1] >= 0.0
  {
    var cosTheta := sqrt(r1);
    var sinTheta := sqrt(1.0 - cosTheta * cosTheta);
    var phi := r2 * 2.0 * PI;
    var l := [sinTheta * cos(phi), cosTheta, sinTheta * sin(phi)];
    Dot3(l, l);
    SphericalUnit(sinTheta, cosTheta, sin(phi), cos(phi));
    l
  }

  /** The sampler `scatter` selects, applied to the draws: the sampled direction and its
      pdf. The cosine samplers turn their local sample into the normal's frame and
      report `cos θ / π`, `cos θ` being the local sample's middle component. */
  function Sample(sampling: SamplingFunctions, normal: Float3, r1: real, r2: real,
                  sin: real -> real, cos: real -> real, sqrt: real -> real): (r: (Float3, real))
    requires IsSinCos(sin, cos) && IsSqrt(sqrt) && UnitDraw(r1) && UnitDraw(r2)
  {
    match sampling
    case RandomUnitVector => RandomUnitVectorSample(r1, r2, sin, cos)
    case CosineWeightedSample1 =>
      var l := CosineLocal1(r1, r2, sin, cos, sqrt);
      (FromLocal(normal, l, sqrt), CosinePdf(l[1]))
    case CosineWeightedSample2 =>
      var l := CosineLocal2(r1, r2, sin, cos, sqrt);
      (FromLocal(normal, l, sqrt), CosinePdf(l[1]))
  }

  /** The uniform sampler reports `1 / (4π)` and lands anywhere on the unit sphere. */
  lemma {:induction false} SampleUniform(normal: Float3, r1: real, r2: real,
                      sin: real -> real, cos: real -> real, sqrt: real -> real)
    requires IsSinCos(sin, cos) && IsSqrt(sqrt) && UnitDraw(r1) && UnitDraw(r2)
    ensures var s := Sample(RandomUnitVector, normal, r1, r2, sin, cos, sqrt);
      s.1 == UniformPdf() && Dot(s.0, s.0) == 1.0
  {
    var s := Sample(RandomUnitVector, normal, r1, r2, sin, cos, sqrt);
    assert s == RandomUnitVectorSample(r1, r2, sin, cos);
  }

  /** The local sample of either cosine sampler. */
  function CosineLocal(sampling: SamplingFunctions, r1: real, r2: real, sin: real -> real,
                       cos: real -> real, sqrt: real -> real): (l: Float3)
    requires IsSinCos(sin, cos) && IsSqrt(sqrt) && UnitDraw(r1) && UnitDraw(r2)
  {
    if sampling == CosineWeightedSample1 then CosineLocal1(r1, r2, sin, cos, sqrt)
    else CosineLocal2(r1, r2, sin, cos, sqrt)
  }

  /** The cosine samplers turn a unit local sample with a non-negative middle component
      `cos θ` into the normal's frame, report `cos θ / π`, and already land on the
      normal's side. */
  lemma {:induction false} SampleHemisphere(sampling: SamplingFunctions, normal: Float3,
                                            r1: real, r2: real, sin: real -> real,
                                            cos: real -> real, sqrt: real -> real)
    requires IsSinCos(sin, cos) && IsSqrt(sqrt) && UnitDraw(r1) && UnitDraw(r2)
    requires sampling != RandomUnitVector
    ensures var s, l := Sample(sampling, normal, r1, r2, sin, cos, sqrt),
                        CosineLocal(sampling, r1, r2, sin, cos, sqrt);
      Dot(l, l) == 1.0 && l[1] >= 0.0 &&
      s.0 == FromLocal(normal, l, sqrt) && s.1 == CosinePdf(l[1]) && s.1 >= 0.0 &&
      Dot(s.0, normal) >= 0.0
  {
    var l := CosineLocal(sampling, r1, r2, sin, cos, sqrt);
    assert Sample(sampling, normal, r1, r2, sin, cos, sqrt)
        == (FromLocal(normal, l, sqrt), CosinePdf(l[1]));
    CosineSampleAbove(normal, l, sqrt);
  }

  /** A local sample with a non-negative middle component lands on the normal's side,
      at the height its cosine pdf records. */
  lemma {:induction false} CosineSampleAbove(normal: Float3, l: Float3, sqrt: real -> real)
    requires IsSqrt(sqrt) && l[1] >= 0.0
    ensures var p := CosinePdf(l[1]);
      p >= 0.0 && Dot(FromLocal(normal, l, sqrt), normal) == (p * PI) * Dot(normal, normal)
    ensures Dot(FromLocal(normal, l, sqrt), normal) >= 0.0
  {
    var d := Dot(normal, normal);
    FromLocalHeight(normal, l, sqrt);
    DotSelfNonNegative(normal);
    ProductNonNegative(l[1], d);
    assert CosinePdf(l[1]) * PI == l[1];
  }

  // ---------------------------------------------------------------------------
  // scatter
  // ---------------------------------------------------------------------------

  /** How far along the new direction the bounced ray starts, off the surface. */
  const SURFACE_OFFSET: real := 0.001

  /** Scaling by -1 negates, and turns a direction below the surface to one above it. */
  lemma {:induction false} FlipFaces(v: Float3, normal: Float3)
    requires Dot(v, normal) < 0.0
    ensures Scale(v, -1.0) == Negated(v)
    ensures Dot(Scale(v, -1.0), normal) > 0.0
  {
    assert Scale(v, -1.0) == Negated(v);
    DotSymmetric(v, normal);
    DotNegated(normal, v);
    DotSymmetric(normal, Negated(v));
  }

  /** `scatter`: draw a sample, negate it in place when it points below the surface, and
      start the bounced ray just off the hit point along it. The pdf is the sampler's. */
  method Scatter(m: Material, hit: Objects.HitRecord<Material>, sampling: SamplingFunctions,
                 r1: real, r2: real, sin: real -> real, cos: real -> real, sqrt: real -> real)
    returns (ray: Ray, pdf: real)
    requires IsSinCos(sin, cos) && IsSqrt(sqrt) && UnitDraw(r1) && UnitDraw(r2)
    ensures var s := Sample(sampling, hit.normal, r1, r2, sin, cos, sqrt);
      (Dot(s.0, hit.normal) < 0.0 ==> ray.direction == Negated(s.0)) &&
      (Dot(s.0, hit.normal) >= 0.0 ==> ray.direction == s.0) &&
      pdf == s.1
    ensures Dot(ray.direction, hit.normal) >= 0.0
    ensures ray.origin == Plus(hit.point, Scale(ray.direction, SURFACE_OFFSET))
  {
    var random := Sample(sampling, hit.normal, r1, r2, sin, cos, sqrt);
    if Dot(random.0, hit.normal) < 0.0 {
      FlipFaces(random.0, hit.normal);
      random := (Scale(random.0, -1.0), random.1);
    }
    ray := Ray(Plus(hit.point, Scale(random.0, SURFACE_OFFSET)), random.0);
    pdf := random.1;
  }

  /** With a cosine sampler the flip never fires: the bounced direction is the sample. */
  lemma {:induction false} CosineSamplesAreNotFlipped(sampling: SamplingFunctions, normal: Float3, r1: real,
                                   r2: real, sin: real -> real, cos: real -> real,
                                   sqrt: real -> real)
    requires IsSinCos(sin, cos) && IsSqrt(sqrt) && UnitDraw(r1) && UnitDraw(r2)
    requires sampling != RandomUnitVector
    ensures !(Dot(Sample(sampling, normal, r1, r2, sin, cos, sqrt).0, normal) < 0.0)
  {
    SampleHemisphere(sampling, normal, r1, r2, sin, cos, sqrt);
  }

  // ---------------------------------------------------------------------------
  // color
  // ---------------------------------------------------------------------------

  /** `x.rem_euclid(1.0)`: the fractional part, in `[0, 1)`. */
  function Frac(x: real): (f: real)
    ensures 0.0 <= f < 1.0
    ensures x - f == x.Floor as real
  {
    x - x.Floor as real
  }

  /** `(frac * 10.0).floor() as i32`: the grid cell along one axis. */
  function Cell(x: real): (k: int)
    ensures 0 <= k <= 9
    ensures k as real <= 10.0 * Frac(x) < k as real + 1.0
  {
    (Frac(x) * 10.0).Floor
  }

  const BLACK: Float3 := [0.0, 0.0, 0.0]
  const WHITE: Float3 := [1.0, 1.0, 1.0]

  /** `color`: the albedo, except on a checkered material with texture coordinates,
      where the cell parity picks black (even) or white (odd). */
  function Color(m: Material, uv: Option<Float2>): (c: Float3)
    ensures !m.checkered || uv.None? ==> c == m.albedo
    ensures m.checkered && uv.Some? ==>
      (c == BLACK <==> (Cell(uv.value[0]) + Cell(uv.value[1])) % 2 == 0) &&
      (c == WHITE <==> (Cell(uv.value[0]) + Cell(uv.value[1])) % 2 == 1)
  {
    if m.checkered then
      match uv
      case Some(p) =>
        if (Cell(p[0]) + Cell(p[1])) % 2 == 0 then BLACK else WHITE
      case None => m.albedo
    else m.albedo
  }

  /** The fractional part ignores whole-number shifts. */
  lemma {:induction false} FracPeriodic(x: real)
    ensures Frac(x + 1.0) == Frac(x)
  {
    assert (x + 1.0).Floor == x.Floor + 1;
  }

  /** The checkerboard repeats with period 1 in each coordinate. */
  lemma {:induction false} ColorPeriodic(m: Material, u: real, v: real)
    ensures Color(m, Some([u + 1.0, v])) == Color(m, Some([u, v]))
    ensures Color(m, Some([u, v + 1.0])) == Color(m, Some([u, v]))
  {
    FracPeriodic(u);
    FracPeriodic(v);
  }

  /** Moving one cell width (0.1) along `u` always changes the colour, also across the
      wrap from cell 9 to cell 0. */
  lemma {:induction false} CheckerAlternates(m: Material, u: real, v: real)
    requires m.checkered
    ensures Color(m, Some([u + 0.1, v])) != Color(m, Some([u, v]))
  {
    var k, k' := Cell(u), Cell(u + 0.1);
    if Frac(u) + 0.1 < 1.0 {
      assert (u + 0.1).Floor == u.Floor;
      assert Frac(u + 0.1) == Frac(u) + 0.1;
      assert k' == k + 1;
    } else {
      assert (u + 0.1).Floor == u.Floor + 1;
      assert Frac(u + 0.1) == Frac(u) + 0.1 - 1.0;
      assert k' == k - 9;
    }
  }

  // ---------------------------------------------------------------------------
  // reflect
  // ---------------------------------------------------------------------------

  /** `reflect`: `v - n·2(v·n)`, the mirror image of `v` in the plane normal to `n`. */
  function Reflect(v: Float3, n: Float3): Float3
  {
    Minus(v, Scale(n, 2.0 * Dot(v, n)))
  }

  lemma {:induction false} DotMinusScaled(v: Float3, n: Float3, k: real)
    ensures Minus(v, Scale(n, k)) == Plus(v, Scale(n, -k))
    ensures Dot(Minus(v, Scale(n, k)), n) == Dot(v, n) - k * Dot(n, n)
  {
    assert Minus(v, Scale(n, k)) == Plus(v, Scale(n, -k));
    DotPlus(v, Scale(n, -k), n);
    DotScale(n, n, -k);
  }

  /** For a unit normal, reflection negates the normal component. */
  lemma {:induction false} ReflectNegatesNormalPart(v: Float3, n: Float3)
    requires Dot(n, n) == 1.0
    ensures Dot(Reflect(v, n), n) == -Dot(v, n)
  {
    DotMinusScaled(v, n, 2.0 * Dot(v, n));
  }

  /** For a unit normal, reflection preserves length. */
  lemma {:induction false} ReflectPreservesLength(v: Float3, n: Float3)
    requires Dot(n, n) == 1.0
    ensures Dot(Reflect(v, n), Reflect(v, n)) == Dot(v, v)
  {
    var k := Dot(v, n);
    DotMinusScaled(v, n, 2.0 * k);
    DotAffineSelf(v, n, -(2.0 * k));
    MirrorSquare(Dot(v, v), k);
  }

  lemma {:induction false} MirrorSquare(vv: real, k: real)
    ensures vv + 2.0 * -(2.0 * k) * k + -(2.0 * k) * (-(2.0 * k) * 1.0) == vv
  {
  }

  /** For a unit normal, reflecting twice gives the vector back. */
  lemma {:induction false} ReflectInvolution(v: Float3, n: Float3)
    requires Dot(n, n) == 1.0
    ensures Reflect(Reflect(v, n), n) == v
  {
    ReflectNegatesNormalPart(v, n);
    var k := Dot(v, n);
    var r := Reflect(v, n);
    assert Dot(r, n) == -k;
    MirrorBack(v, n, k);
  }

  /** Subtracting `n` scaled by `2k` and then by `-2k` gives the vector back. */
  lemma {:induction false} MirrorBack(v: Float3, n: Float3, k: real)
    ensures Minus(Minus(v, Scale(n, 2.0 * k)), Scale(n, 2.0 * -k)) == v
  {
    var r := Minus(v, Scale(n, 2.0 * k));
    var rr := Minus(r, Scale(n, 2.0 * -k));
    forall i | 0 <= i < 3 ensures rr[i] == v[i] {
      assert r[i] == v[i] - n[i] * (2.0 * k);
      assert rr[i] == r[i] - n[i] * (2.0 * -k);
      MirrorTwice(v[i], n[i], k);
    }
  }

  lemma MirrorTwice(a: real, b: real, k: real)
    ensures (a - b * (2.0 * k)) - b * (2.0 * -k) == a
  {
    assert b * (2.0 * -k) == -(b * (2.0 * k));
  }

  // ---------------------------------------------------------------------------
  // Presets
  // ---------------------------------------------------------------------------

  function Reflective(): Material { Material([1.0, 1.0, 1.0], 1.0, false) }
  function Red(): Material { Material([1.0, 0.0, 0.0], 0.0, false) }
  function Green(): Material { Material([0.0, 1.0, 0.0], 0.0, false) }
  function Blue(): Material { Material([0.0, 0.0, 1.0], 0.0, false) }
  function White(): Material { Material(WHITE, 0.0, false) }
  function Checkered(): Material { Material([1.0, 1.0, 1.0], 0.0, true) }
  function Black(): Material { Material(BLACK, 0.0, false) }

  /** `Default`: the white preset. */
  function Default(): Material { White() }

  /** `from_color`: a plain, non-reflective material of the given colour. */
  function FromColor(color: Float3): Material { Material(color, 0.0, false) }

  /** The names `from_toml` accepts. */
  const PRESET_NAMES: set<string> :=
    {"reflective", "red", "green", "blue", "white", "checkered", "black"}

  /** `from_toml`'s name match; `None` where the source reaches `todo!()`. */
  function FromName(name: string): (r: Option<Material>)
    ensures r.Some? <==> name in PRESET_NAMES
  {
    match name
    case "reflective" => Some(Reflective())
    case "red" => Some(Red())
    case "green" => Some(Green())
    case "blue" => Some(Blue())
    case "white" => Some(White())
    case "checkered" => Some(Checkered())
    case "black" => Some(Black())
    case _ => None
  }

  /** Only `reflective` is a mirror and only `checkered` is textured; every preset's
      colour without texture is its albedo, and the default is plain white. */
  lemma {:induction false} PresetTable(name: string, uv: Option<Float2>)
    requires FromName(name).Some?
    ensures var m := FromName(name).value;
      (m.reflectivity == 1.0 <==> name == "reflective") &&
      (m.reflectivity == 0.0 <==> name != "reflective") &&
      (m.checkered <==> name == "checkered") &&
      (name != "checkered" ==> Color(m, uv) == m.albedo)
    ensures Default() == FromName("white").value
  {
    assert name in PRESET_NAMES;
  }

  /** A material made from a colour shows that colour everywhere, like the default's
      white. */
  lemma {:induction false} FromColorShowsColor(color: Float3, uv: Option<Float2>)
    ensures Color(FromColor(color), uv) == color
    ensures FromColor(WHITE) == Default()
    ensures FromColor(color).reflectivity == 0.0
  {
    var m := FromColor(color);
    assert !m.checkered;
  }
}
