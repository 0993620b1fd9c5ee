/** `Sphere::hit` of src/object/sphere.rs: the ray-sphere quadratic
    `a·t² + 2·half_b·t + c = 0`, solved with the half-b formula, keeping the nearer root
    when it lies in `[t_min, t_max]` and falling back to the farther one. */
module Spheres {
  import opened Prelude
  import opened VectorConstGenerics
  import opened Rays
  import Objects

  datatype Sphere<M> = Sphere(center: Float3, radius: real, material: M)

  // The coefficients of the quadratic, as the source names them.

  /** `a = direction.length_squared()`. */
  function QuadA(ray: Ray): real
  {
    Dot(ray.direction, ray.direction)
  }

  function HalfB<M>(s: Sphere<M>, ray: Ray): real
  {
    Dot(Minus(ray.origin, s.center), ray.direction)
  }

  /** `c = oc.length_squared() - radius²`. */
  function QuadC<M>(s: Sphere<M>, ray: Ray): real
  {
    Dot(Minus(ray.origin, s.center), Minus(ray.origin, s.center)) - s.radius * s.radius
  }

  function Discriminant<M>(s: Sphere<M>, ray: Ray): real
  {
    HalfB(s, ray) * HalfB(s, ray) - QuadA(ray) * QuadC(s, ray)
  }

  /** The nearer root `(-half_b - sqrtd) / a`. */
  function NearRoot<M>(s: Sphere<M>, ray: Ray, sqrt: real -> real): real
    requires QuadA(ray) != 0.0
  {
    (-HalfB(s, ray) - sqrt(Discriminant(s, ray))) / QuadA(ray)
  }

  /** The farther root `(-half_b + sqrtd) / a`. */
  function FarRoot<M>(s: Sphere<M>, ray: Ray, sqrt: real -> real): real
    requires QuadA(ray) != 0.0
  {
    (-HalfB(s, ray) + sqrt(Discriminant(s, ray))) / QuadA(ray)
  }

  /** The source's range test `!(root < t_min || t_max < root)`: inclusive at both ends,
      with no upper limit when `t_max` is infinite. */
  predicate InRange(t: real, tMin: real, tMax: Bound)
  {
    !(t < tMin || (tMax.Finite? && tMax.t < t))
  }

  /** `(point - center).scale(1.0 / radius)`. */
  function OutwardNormal<M>(s: Sphere<M>, p: Float3): Float3
    requires s.radius != 0.0
  {
    Scale(Minus(p, s.center), 1.0 / s.radius)
  }

  /** `hit`. The source divides by `a = |direction|²` and by the radius; both are
      required to be non-zero here. */
  function Hit<M>(s: Sphere<M>, ray: Ray, tMin: real, tMax: Bound, sqrt: real -> real)
    : (r: Option<Objects.HitRecord<M>>)
    requires IsSqrt(sqrt) && QuadA(ray) != 0.0 && s.radius != 0.0
    ensures Discriminant(s, ray) < 0.0 ==> r == None
    ensures Discriminant(s, ray) >= 0.0 && InRange(NearRoot(s, ray, sqrt), tMin, tMax) ==>
      r.Some? && r.value.t == NearRoot(s, ray, sqrt)
    ensures Discriminant(s, ray) >= 0.0 && !InRange(NearRoot(s, ray, sqrt), tMin, tMax) ==>
      (r.Some? <==> InRange(FarRoot(s, ray, sqrt), tMin, tMax)) &&
      (r.Some? ==> r.value.t == FarRoot(s, ray, sqrt))
    ensures r.Some? ==> tMin <= r.value.t && tMax.Admits(r.value.t)
    ensures r.Some? ==> r.value.point == At(ray, r.value.t)
    ensures r.Some? ==> r.value.uv == None && r.value.material == s.material
    ensures r.Some? ==>
      (r.value.frontFace <==> Dot(ray.direction, OutwardNormal(s, r.value.point)) < 0.0)
    ensures r.Some? ==>
      r.value.normal == Objects.FacingNormal(ray.direction, OutwardNormal(s, r.value.point), sqrt)
    ensures r.Some? ==> Dot(ray.direction, r.value.normal) <= 0.0
  {
    if Discriminant(s, ray) < 0.0 then None
    else
      var root :=
        if !InRange(NearRoot(s, ray, sqrt), tMin, tMax) then FarRoot(s, ray, sqrt)
        else NearRoot(s, ray, sqrt);
      if !InRange(root, tMin, tMax) then None
      else
        var point := At(ray, root);
        var outward := OutwardNormal(s, point);
        Some(Objects.HitRecord(point, Objects.FacingNormal(ray.direction, outward, sqrt), root,
                       Dot(ray.direction, outward) < 0.0, s.material, None))
  }

  /** Either root of `a·t² + 2·hb·t + c = 0`, written as `(-hb + e·sd) / a` with
      `e = ±1` and `sd² = hb² - a·c`, solves the equation. */
  lemma HalfBRootSolves(a: real, hb: real, c: real, sd: real, e: real, t: real)
    requires a != 0.0 && sd * sd == hb * hb - a * c
    requires e == 1.0 || e == -1.0
    requires t == (-hb + e * sd) / a
    ensures a * t * t + 2.0 * hb * t + c == 0.0
  {
    var k := a * t;
    assert k == -hb + e * sd;
    assert e * e == 1.0;
    assert k * k == e * e * (sd * sd) - 2.0 * e * sd * hb + hb * hb;
    assert a * (a * t * t + 2.0 * hb * t + c) == k * k + 2.0 * hb * k + a * c;
    assert a * (a * t * t + 2.0 * hb * t + c) == 0.0;
  }

  /** Every point `hit` reports lies on the sphere: its distance from the centre is the
      radius. */
  lemma HitIsOnSphere<M>(s: Sphere<M>, ray: Ray, tMin: real, tMax: Bound, sqrt: real -> real)
    requires IsSqrt(sqrt) && QuadA(ray) != 0.0 && s.radius != 0.0
    ensures var r := Hit(s, ray, tMin, tMax, sqrt);
      r.Some? ==> Dot(Minus(r.value.point, s.center), Minus(r.value.point, s.center))
                  == s.radius * s.radius
  {
    var r := Hit(s, ray, tMin, tMax, sqrt);
    if r.Some? {
      var t := r.value.t;
      assert Discriminant(s, ray) >= 0.0;
      assert t == NearRoot(s, ray, sqrt) || t == FarRoot(s, ray, sqrt);
      RootsSolveQuadratic(s, ray, sqrt, t);
      RootIsOnSphere(s, ray, t);
    }
  }

  /** Both roots the source computes solve the quadratic. */
  lemma RootsSolveQuadratic<M>(s: Sphere<M>, ray: Ray, sqrt: real -> real, t: real)
    requires IsSqrt(sqrt) && QuadA(ray) != 0.0 && Discriminant(s, ray) >= 0.0
    requires t == NearRoot(s, ray, sqrt) || t == FarRoot(s, ray, sqrt)
    ensures QuadA(ray) * t * t + 2.0 * HalfB(s, ray) * t + QuadC(s, ray) == 0.0
  {
    var a, hb, c := QuadA(ray), HalfB(s, ray), QuadC(s, ray);
    var sd := sqrt(Discriminant(s, ray));
    assert sd * sd == hb * hb - a * c;
    var e := if t == NearRoot(s, ray, sqrt) then -1.0 else 1.0;
    assert t == (-hb + e * sd) / a;
    HalfBRootSolves(a, hb, c, sd, e, t);
  }

  /** A root of the quadratic is a parameter at which the ray is on the sphere. */
  lemma RootIsOnSphere<M>(s: Sphere<M>, ray: Ray, t: real)
    requires QuadA(ray) * t * t + 2.0 * HalfB(s, ray) * t + QuadC(s, ray) == 0.0
    ensures Dot(Minus(At(ray, t), s.center), Minus(At(ray, t), s.center)) == s.radius * s.radius
  {
    var oc := Minus(ray.origin, s.center);
    assert Minus(At(ray, t), s.center) == Plus(oc, Scale(ray.direction, t)) by {
      var lhs := Minus(At(ray, t), s.center);
      forall i | 0 <= i < 3 ensures lhs[i] == Plus(oc, Scale(ray.direction, t))[i] { }
    }
    DotAffineSelf(oc, ray.direction, t);
  }

  /** On the sphere, the outward normal `(p - center) / radius` has unit length, so the
      source's later `normalize` does not change it. */
  lemma OutwardNormalIsUnit<M>(s: Sphere<M>, p: Float3)
    requires s.radius != 0.0
    requires Dot(Minus(p, s.center), Minus(p, s.center)) == s.radius * s.radius
    ensures LengthSquared(OutwardNormal(s, p)) == 1.0
  {
    LengthSquaredScale(Minus(p, s.center), 1.0 / s.radius);
    InverseSquare(s.radius);
  }

  /** The unit sphere at the origin, and a ray aimed at it from `z = -5`. */
  const UNIT_SPHERE: Sphere<int> := Sphere.Sphere([0.0, 0.0, 0.0], 1.0, 7)
  const HEAD_ON: Ray := Ray([0.0, 0.0, -5.0], [0.0, 0.0, 1.0])

  lemma ExampleCoefficients()
    ensures QuadA(HEAD_ON) == 1.0 && HalfB(UNIT_SPHERE, HEAD_ON) == -5.0
    ensures QuadC(UNIT_SPHERE, HEAD_ON) == 24.0 && Discriminant(UNIT_SPHERE, HEAD_ON) == 1.0
  {
    Dot3(HEAD_ON.direction, HEAD_ON.direction);
    var oc := Minus(HEAD_ON.origin, UNIT_SPHERE.center);
    assert oc == [0.0, 0.0, -5.0];
    Dot3(oc, HEAD_ON.direction);
    Dot3(oc, oc);
  }

  /** The head-on ray enters the unit sphere at `t = 4` through `(0, 0, -1)`, from
      outside. */
  lemma HitExample(sqrt: real -> real)
    requires IsSqrt(sqrt)
    ensures QuadA(HEAD_ON) == 1.0
    ensures var r := Hit(UNIT_SPHERE, HEAD_ON, 0.001, Infinity, sqrt);
      r.Some? && r.value.t == 4.0 && r.value.point == [0.0, 0.0, -1.0] && r.value.frontFace
  {
    ExampleCoefficients();
    HeadOnNearRoot(sqrt);
    HeadOnEntry();
  }

  /** The head-on ray's nearer root is `t = 4`. */
  lemma HeadOnNearRoot(sqrt: real -> real)
    requires IsSqrt(sqrt)
    ensures QuadA(HEAD_ON) == 1.0 && Discriminant(UNIT_SPHERE, HEAD_ON) == 1.0
    ensures NearRoot(UNIT_SPHERE, HEAD_ON, sqrt) == 4.0
  {
    ExampleCoefficients();
    UnitRoot(sqrt(1.0));
  }

  /** At `t = 4` the head-on ray is at `(0, 0, -1)`, where the outward normal points back
      along the ray. */
  lemma HeadOnEntry()
    ensures At(HEAD_ON, 4.0) == [0.0, 0.0, -1.0]
    ensures Dot(HEAD_ON.direction, OutwardNormal(UNIT_SPHERE, [0.0, 0.0, -1.0])) == -1.0
  {
    var outward := OutwardNormal(UNIT_SPHERE, [0.0, 0.0, -1.0]);
    assert outward == [0.0, 0.0, -1.0];
    Dot3(HEAD_ON.direction, outward);
  }

  /** Lowering `t_max` to anything at or beyond the parameter reported without an upper
      limit leaves the hit unchanged, so the scene's shrinking `closest_so_far` never
      loses a sphere's nearest hit. */
  lemma NarrowerBoundKeepsHit<M>(s: Sphere<M>, ray: Ray, tMin: real, b: Bound,
                                 sqrt: real -> real)
    requires IsSqrt(sqrt) && QuadA(ray) != 0.0 && s.radius != 0.0
    requires var r := Hit(s, ray, tMin, Infinity, sqrt); r.Some? && b.Admits(r.value.t)
    ensures Hit(s, ray, tMin, b, sqrt) == Hit(s, ray, tMin, Infinity, sqrt)
  {
  }
}
