/** `Quad::hit` of src/object/quad.rs: the plane through corner `a` with normal
    `normalize((b - a) × (c - a))`, texture coordinates `u` along the edge `a → d` and
    `v` along the edge `a → b`, and for a finite quad the test `0 ≤ u, v ≤ 1`.

    The source measures `v` from corner `b` instead of corner `a` (quad.rs:43-44), which
    shifts `v` by -1 and moves the accepted region of a finite quad one edge-length
    past `b`. `HitAsWritten` keeps that; `Hit` measures from `a`. */
module Quads {
  import opened Prelude
  import opened VectorConstGenerics
  import opened Rays
  import Objects

  datatype Quad<M> = Quad(a: Float3, b: Float3, c: Float3, d: Float3, infinite: bool,
                          scale: Float2, material: M)

  /** A ray is treated as parallel when `|direction · normal|` is below 1e-8. */
  const PARALLEL_LIMIT: real := 0.00000001

  /** The two edges the texture coordinates are measured along have non-zero length
      (the source divides by their squared lengths). */
  predicate Proper<M>(q: Quad<M>)
  {
    Dot(Minus(q.d, q.a), Minus(q.d, q.a)) != 0.0 && Dot(Minus(q.b, q.a), Minus(q.b, q.a)) != 0.0
  }

  function Normal<M>(q: Quad<M>, sqrt: real -> real): Float3
    requires IsSqrt(sqrt)
  {
    Normalize(Cross(Minus(q.b, q.a), Minus(q.c, q.a)), sqrt)
  }

  function Denom<M>(q: Quad<M>, ray: Ray, sqrt: real -> real): real
    requires IsSqrt(sqrt)
  {
    Dot(ray.direction, Normal(q, sqrt))
  }

  /** `(a - origin) · normal / denom`. */
  function Distance<M>(q: Quad<M>, ray: Ray, sqrt: real -> real): real
    requires IsSqrt(sqrt) && Denom(q, ray, sqrt) != 0.0
  {
    Dot(Minus(q.a, ray.origin), Normal(q, sqrt)) / Denom(q, ray, sqrt)
  }

  /** `u = (d - a) · (p - a) / |d - a|²`. */
  function U<M>(q: Quad<M>, p: Float3): real
    requires Proper(q)
  {
    Dot(Minus(q.d, q.a), Minus(p, q.a)) / Dot(Minus(q.d, q.a), Minus(q.d, q.a))
  }

  /** `v` as the source computes it: `(b - a) · (p - b) / |b - a|²`. */
  function VAsWritten<M>(q: Quad<M>, p: Float3): real
    requires Proper(q)
  {
    Dot(Minus(q.b, q.a), Minus(p, q.b)) / Dot(Minus(q.b, q.a), Minus(q.b, q.a))
  }

  /** `v` measured from corner `a`, like `u`: `(b - a) · (p - a) / |b - a|²`. */
  function V<M>(q: Quad<M>, p: Float3): real
    requires Proper(q)
  {
    Dot(Minus(q.b, q.a), Minus(p, q.a)) / Dot(Minus(q.b, q.a), Minus(q.b, q.a))
  }

  /** `(0.0..=1.0).contains(&x)`. */
  predicate UnitInterval(x: real)
  {
    0.0 <= x <= 1.0
  }

  /** The plane part of `hit` (quad.rs:23-33): the parameter at which the ray meets the
      quad's plane, unless the ray is (nearly) parallel to it or the parameter is out of
      `[t_min, t_max]`. */
  function Crossing<M>(q: Quad<M>, ray: Ray, tMin: real, tMax: Bound, sqrt: real -> real)
    : (r: Option<real>)
    requires IsSqrt(sqrt)
    ensures r.Some? <==>
      Abs(Denom(q, ray, sqrt)) >= PARALLEL_LIMIT && tMin <= Distance(q, ray, sqrt) &&
      tMax.Admits(Distance(q, ray, sqrt))
    ensures r.Some? ==> r.value == Distance(q, ray, sqrt)
  {
    if Abs(Denom(q, ray, sqrt)) < PARALLEL_LIMIT then None
    else
      var t := Distance(q, ray, sqrt);
      if t < tMin || (tMax.Finite? && t > tMax.t) then None else Some(t)
  }

  /** The record of quad.rs:35-58 for a crossing at `t` with coordinates `(u, v)`: the
      normal faces against the ray, and `uv` is `(u, v)` scaled componentwise. */
  function Record<M>(q: Quad<M>, ray: Ray, t: real, u: real, v: real, sqrt: real -> real)
    : (rec: Objects.HitRecord<M>)
    requires IsSqrt(sqrt)
    ensures rec.t == t && rec.point == At(ray, t) && rec.material == q.material
    ensures rec.frontFace <==> Denom(q, ray, sqrt) < 0.0
    ensures rec.normal == if rec.frontFace then Normal(q, sqrt) else Negated(Normal(q, sqrt))
    ensures Dot(ray.direction, rec.normal) <= 0.0
    ensures rec.uv == Some(Times([u, v], q.scale))
  {
    var n := Normal(q, sqrt);
    var frontFace := Dot(ray.direction, n) < 0.0;
    DotNegated(ray.direction, n);
    Objects.HitRecord(At(ray, t), if frontFace then n else Negated(n), t, frontFace, q.material,
                      Some(Times([u, v], q.scale)))
  }

  /** `hit` exactly as the source writes it, with `v` measured from `b`. */
  function HitAsWritten<M>(q: Quad<M>, ray: Ray, tMin: real, tMax: Bound, sqrt: real -> real)
    : (r: Option<Objects.HitRecord<M>>)
    requires IsSqrt(sqrt) && Proper(q)
    ensures var c := Crossing(q, ray, tMin, tMax, sqrt);
      r.Some? <==> (c.Some? &&
        (q.infinite || (UnitInterval(U(q, At(ray, c.value))) &&
                        UnitInterval(VAsWritten(q, At(ray, c.value))))))
    ensures r.Some? ==> tMin <= r.value.t && tMax.Admits(r.value.t)
    ensures r.Some? ==> r.value.point == At(ray, r.value.t)
    ensures r.Some? ==> (r.value.frontFace <==> Denom(q, ray, sqrt) < 0.0)
    ensures r.Some? ==>
      r.value.normal == if r.value.frontFace then Normal(q, sqrt) else Negated(Normal(q, sqrt))
    ensures r.Some? ==> Dot(ray.direction, r.value.normal) <= 0.0
    ensures r.Some? ==> r.value.material == q.material
    ensures r.Some? ==>
      r.value.uv == Some(Times([U(q, r.value.point), VAsWritten(q, r.value.point)], q.scale))
  {
    match Crossing(q, ray, tMin, tMax, sqrt)
    case None => None
    case Some(t) =>
      var p := At(ray, t);
      var u, v := U(q, p), VAsWritten(q, p);
      if !q.infinite && (!UnitInterval(u) || !UnitInterval(v)) then None
      else Some(Record(q, ray, t, u, v, sqrt))
  }

  /** `hit` with `v` measured from `a`. */
  function Hit<M>(q: Quad<M>, ray: Ray, tMin: real, tMax: Bound, sqrt: real -> real)
    : (r: Option<Objects.HitRecord<M>>)
    requires IsSqrt(sqrt) && Proper(q)
    ensures Abs(Denom(q, ray, sqrt)) < PARALLEL_LIMIT ==> r == None
    ensures var c := Crossing(q, ray, tMin, tMax, sqrt);
      r.Some? <==> (c.Some? &&
        (q.infinite || (UnitInterval(U(q, At(ray, c.value))) && UnitInterval(V(q, At(ray, c.value))))))
    ensures r.Some? ==> tMin <= r.value.t && tMax.Admits(r.value.t)
    ensures r.Some? ==> r.value.point == At(ray, r.value.t)
    ensures r.Some? ==> (r.value.frontFace <==> Denom(q, ray, sqrt) < 0.0)
    ensures r.Some? ==>
      r.value.normal == if r.value.frontFace then Normal(q, sqrt) else Negated(Normal(q, sqrt))
    ensures r.Some? ==> Dot(ray.direction, r.value.normal) <= 0.0
    ensures r.Some? ==> r.value.material == q.material
    ensures r.Some? ==>
      r.value.uv == Some(Times([U(q, r.value.point), V(q, r.value.point)], q.scale))
    ensures r.Some? && !q.infinite ==>
      UnitInterval(U(q, r.value.point)) && UnitInterval(V(q, r.value.point))
  {
    match Crossing(q, ray, tMin, tMax, sqrt)
    case None => None
    case Some(t) =>
      var p := At(ray, t);
      var u, v := U(q, p), V(q, p);
      if !q.infinite && (!UnitInterval(u) || !UnitInterval(v)) then None
      else Some(Record(q, ray, t, u, v, sqrt))
  }

  /** A crossing whose coordinates a finite quad accepts is reported with the record
      `Record` builds from them. */
  lemma HitAtCrossing<M>(q: Quad<M>, ray: Ray, tMin: real, tMax: Bound, sqrt: real -> real,
                         t: real)
    requires IsSqrt(sqrt) && Proper(q)
    requires Crossing(q, ray, tMin, tMax, sqrt) == Some(t)
    requires q.infinite || (UnitInterval(U(q, At(ray, t))) && UnitInterval(V(q, At(ray, t))))
    ensures Hit(q, ray, tMin, tMax, sqrt)
         == Some(Record(q, ray, t, U(q, At(ray, t)), V(q, At(ray, t)), sqrt))
  {
  }

  /** Both versions report points on the quad's plane. */
  lemma HitIsOnPlane<M>(q: Quad<M>, ray: Ray, tMin: real, tMax: Bound, sqrt: real -> real)
    requires IsSqrt(sqrt) && Proper(q)
    ensures var r := Hit(q, ray, tMin, tMax, sqrt);
      r.Some? ==> Dot(Minus(r.value.point, q.a), Normal(q, sqrt)) == 0.0
    ensures var r := HitAsWritten(q, ray, tMin, tMax, sqrt);
      r.Some? ==> Dot(Minus(r.value.point, q.a), Normal(q, sqrt)) == 0.0
  {
    if Crossing(q, ray, tMin, tMax, sqrt).Some? {
      AtMeetsPlane(ray, q.a, Normal(q, sqrt));
    }
  }

  /** The source's `v` is the intended one shifted by exactly one edge: every point gets
      `v - 1`. */
  lemma VAsWrittenIsShifted<M>(q: Quad<M>, p: Float3)
    requires Proper(q)
    ensures VAsWritten(q, p) == V(q, p) - 1.0
  {
    var ab := Minus(q.b, q.a);
    assert Minus(p, q.b) == Plus(Minus(p, q.a), Scale(ab, -1.0)) by {
      var lhs := Minus(p, q.b);
      forall i | 0 <= i < 3 ensures lhs[i] == Plus(Minus(p, q.a), Scale(ab, -1.0))[i] { }
    }
    DotSymmetric(ab, Minus(p, q.b));
    DotPlus(Minus(p, q.a), Scale(ab, -1.0), ab);
    DotScale(ab, ab, -1.0);
    DotSymmetric(Minus(p, q.a), ab);
    ShiftedQuotient(Dot(ab, Minus(p, q.a)), Dot(ab, ab));
  }

  /** On a rectangle (edges `a → d` and `a → b` perpendicular) the point
      `a + α·(d - a) + β·(b - a)` has coordinates `u = α` and `v = β`: the corrected
      coordinates are the point's position on the two edges, so a finite quad accepts
      exactly the rectangle. */
  lemma CoordinatesOnRectangle<M>(q: Quad<M>, alpha: real, beta: real)
    requires Proper(q) && Dot(Minus(q.d, q.a), Minus(q.b, q.a)) == 0.0
    ensures var p := Plus(Plus(q.a, Scale(Minus(q.d, q.a), alpha)), Scale(Minus(q.b, q.a), beta));
      U(q, p) == alpha && V(q, p) == beta
  {
    var ad, ab := Minus(q.d, q.a), Minus(q.b, q.a);
    var p := Plus(Plus(q.a, Scale(ad, alpha)), Scale(ab, beta));
    var offset := Plus(Scale(ad, alpha), Scale(ab, beta));
    assert Minus(p, q.a) == offset by {
      var lhs := Minus(p, q.a);
      forall i | 0 <= i < 3 ensures lhs[i] == offset[i] { }
    }
    DotSymmetric(ad, offset);
    DotPlus(Scale(ad, alpha), Scale(ab, beta), ad);
    DotScale(ad, ad, alpha);
    DotScale(ab, ad, beta);
    DotSymmetric(ab, ad);
    assert Dot(ad, offset) == alpha * Dot(ad, ad);
    CancelFactor(alpha, Dot(ad, ad));
    DotSymmetric(ab, offset);
    DotPlus(Scale(ad, alpha), Scale(ab, beta), ab);
    DotScale(ad, ab, alpha);
    DotScale(ab, ab, beta);
    assert Dot(ab, offset) == beta * Dot(ab, ab);
    CancelFactor(beta, Dot(ab, ab));
  }

  // ---------------------------------------------------------------------------
  // The unit square of the xy-plane, corners (0,0,0), (1,0,0), (1,1,0), (0,1,0)
  // ---------------------------------------------------------------------------

  const UNIT_SQUARE: Quad<int> :=
    Quad([0.0, 0.0, 0.0], [1.0, 0.0, 0.0], [1.0, 1.0, 0.0], [0.0, 1.0, 0.0], false, [1.0, 1.0], 0)

  /** A ray falling straight down onto the plane `z = 0` at `(x, y)`. */
  function Downward(x: real, y: real): Ray
  {
    Ray([x, y, 1.0], [0.0, 0.0, -1.0])
  }

  lemma UnitSquareGeometry(sqrt: real -> real)
    requires IsSqrt(sqrt)
    ensures Proper(UNIT_SQUARE)
    ensures Normal(UNIT_SQUARE, sqrt) == [0.0, 0.0, 1.0]
  {
    var q := UNIT_SQUARE;
    assert Minus(q.d, q.a) == [0.0, 1.0, 0.0];
    assert Minus(q.b, q.a) == [1.0, 0.0, 0.0];
    Dot3(Minus(q.d, q.a), Minus(q.d, q.a));
    Dot3(Minus(q.b, q.a), Minus(q.b, q.a));
    var n := Cross(Minus(q.b, q.a), Minus(q.c, q.a));
    assert n == [0.0, 0.0, 1.0];
    Dot3(n, n);
    UnitRoot(sqrt(1.0));
  }

  /** Dropped at `(x, y)`, the ray crosses the square's plane at `t = 1`, at `(x, y, 0)`,
      with `u = y`, `v = x` and the source's `v = x - 1`. */
  lemma DownwardCrossing(x: real, y: real, sqrt: real -> real)
    requires IsSqrt(sqrt)
    ensures Proper(UNIT_SQUARE)
    ensures Crossing(UNIT_SQUARE, Downward(x, y), 0.001, Infinity, sqrt) == Some(1.0)
    ensures At(Downward(x, y), 1.0) == [x, y, 0.0]
    ensures U(UNIT_SQUARE, [x, y, 0.0]) == y && V(UNIT_SQUARE, [x, y, 0.0]) == x
    ensures VAsWritten(UNIT_SQUARE, [x, y, 0.0]) == x - 1.0
  {
    var q, ray := UNIT_SQUARE, Downward(x, y);
    UnitSquareGeometry(sqrt);
    var n := Normal(q, sqrt);
    Dot3(ray.direction, n);
    Dot3(Minus(q.a, ray.origin), n);
    var p := [x, y, 0.0];
    assert At(ray, 1.0) == p;
    Dot3(Minus(q.d, q.a), Minus(p, q.a));
    Dot3(Minus(q.b, q.a), Minus(p, q.a));
    Dot3(Minus(q.d, q.a), Minus(q.d, q.a));
    Dot3(Minus(q.b, q.a), Minus(q.b, q.a));
    VAsWrittenIsShifted(q, p);
  }

  /** The source misses the unit square when aimed at its centre. */
  lemma AsWrittenMissesCentre(sqrt: real -> real)
    requires IsSqrt(sqrt)
    ensures Proper(UNIT_SQUARE)
    ensures HitAsWritten(UNIT_SQUARE, Downward(0.5, 0.5), 0.001, Infinity, sqrt) == None
  {
    DownwardCrossing(0.5, 0.5, sqrt);
  }

  /** ... and hits it where it is not, half an edge beyond corner `b`. */
  lemma AsWrittenHitsOutside(sqrt: real -> real)
    requires IsSqrt(sqrt)
    ensures Proper(UNIT_SQUARE)
    ensures HitAsWritten(UNIT_SQUARE, Downward(1.5, 0.5), 0.001, Infinity, sqrt).Some?
  {
    DownwardCrossing(1.5, 0.5, sqrt);
  }

  /** With `v` measured from `a`, the centre is hit with `uv = (0.5, 0.5)` from the
      front ... */
  lemma HitCentre(sqrt: real -> real)
    requires IsSqrt(sqrt)
    ensures Proper(UNIT_SQUARE)
    ensures var r := Hit(UNIT_SQUARE, Downward(0.5, 0.5), 0.001, Infinity, sqrt);
      r.Some? && r.value.uv == Some([0.5, 0.5]) && r.value.frontFace
  {
    var q, ray := UNIT_SQUARE, Downward(0.5, 0.5);
    CentreRecord(sqrt);
    var rec := Record(q, ray, 1.0, 0.5, 0.5, sqrt);
    UnitSquareGeometry(sqrt);
    Dot3(ray.direction, Normal(q, sqrt));
    assert rec.frontFace;
    assert rec.uv == Some([0.5, 0.5]) by {
      assert Times([0.5, 0.5], q.scale) == [0.5, 0.5];
    }
  }

  lemma CentreRecord(sqrt: real -> real)
    requires IsSqrt(sqrt)
    ensures Proper(UNIT_SQUARE)
    ensures Hit(UNIT_SQUARE, Downward(0.5, 0.5), 0.001, Infinity, sqrt)
         == Some(Record(UNIT_SQUARE, Downward(0.5, 0.5), 1.0, 0.5, 0.5, sqrt))
  {
    DownwardCrossing(0.5, 0.5, sqrt);
    HitAtCrossing(UNIT_SQUARE, Downward(0.5, 0.5), 0.001, Infinity, sqrt, 1.0);
  }

  /** ... and the point beyond `b` is missed. */
  lemma HitMissesOutside(sqrt: real -> real)
    requires IsSqrt(sqrt)
    ensures Proper(UNIT_SQUARE)
    ensures Hit(UNIT_SQUARE, Downward(1.5, 0.5), 0.001, Infinity, sqrt) == None
  {
    DownwardCrossing(1.5, 0.5, sqrt);
  }

  /** Lowering `t_max` to anything at or beyond the parameter reported without an upper
      limit leaves the hit unchanged. */
  lemma NarrowerBoundKeepsHit<M>(q: Quad<M>, ray: Ray, tMin: real, b: Bound, sqrt: real -> real)
    requires IsSqrt(sqrt) && Proper(q)
    requires var r := Hit(q, ray, tMin, Infinity, sqrt); r.Some? && b.Admits(r.value.t)
    ensures Hit(q, ray, tMin, b, sqrt) == Hit(q, ray, tMin, Infinity, sqrt)
  {
  }

  /** The same for the test as written. */
  lemma NarrowerBoundKeepsHitAsWritten<M>(q: Quad<M>, ray: Ray, tMin: real, b: Bound,
                                          sqrt: real -> real)
    requires IsSqrt(sqrt) && Proper(q)
    requires var r := HitAsWritten(q, ray, tMin, Infinity, sqrt); r.Some? && b.Admits(r.value.t)
    ensures HitAsWritten(q, ray, tMin, b, sqrt) == HitAsWritten(q, ray, tMin, Infinity, sqrt)
  {
  }
}
