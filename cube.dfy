/** `Cube::hit` of src/object/cube.rs: the slab test for an axis-aligned box. A loop
    over the three axes narrows the window `[t_min, t_max]` to the parameters for which
    the ray lies between the box's two planes on that axis, and gives up as soon as the
    window closes.

    The source's "outward normal" (cube.rs:36-40) is the vector of per-axis distances
    to the nearer face, which is not a face normal: it has no component along the axis
    of the face that was hit and points into the box. `HitAsWritten` keeps it
    (`OutwardNormalAsWritten`); `Hit` uses the normal of the nearest face,
    `OutwardNormal`. Both run the same slab loop, `SlabWindow`. */
module Cubes {
  import opened Prelude
  import opened VectorConstGenerics
  import opened Rays
  import Objects

  datatype Cube<M> = Cube(min: Float3, max: Float3, material: M)

  // ---------------------------------------------------------------------------
  // The slab test, as functions
  // ---------------------------------------------------------------------------

  /** One axis of the loop body (cube.rs:23-28): the parameters at which the ray crosses
      the planes `lo` and `hi`, swapped when the direction is negative. */
  function SlabPair(o: real, d: real, lo: real, hi: real): (real, real)
    requires d != 0.0
  {
    var invD := 1.0 / d;
    var t0 := (lo - o) * invD;
    var t1 := (hi - o) * invD;
    if invD < 0.0 then (t1, t0) else (t0, t1)
  }

  function Slab<M>(cube: Cube<M>, ray: Ray, i: nat): (real, real)
    requires i < 3 && NonZero(ray.direction)
  {
    SlabPair(ray.origin[i], ray.direction[i], cube.min[i], cube.max[i])
  }

  /** The window `(t_min, t_max)` after the first `n` axes, or `None` once
      `t_max <= t_min`. The upper end starts as the caller's bound, which may be
      infinite, and is finite once an axis has been processed. */
  function Window<M>(cube: Cube<M>, ray: Ray, lo: real, hi: Bound, n: nat)
    : Option<(real, Bound)>
    requires n <= 3 && NonZero(ray.direction)
  {
    if n == 0 then Some((lo, hi))
    else
      match Window(cube, ray, lo, hi, n - 1)
      case None => None
      case Some(w) =>
        var slab := Slab(cube, ray, n - 1);
        var l, h := Max(w.0, slab.0), w.1.Cap(slab.1);
        if h <= l then None else Some((l, Finite(h)))
  }

  predicate Inside<M>(cube: Cube<M>, p: Float3)
  {
    forall k :: 0 <= k < 3 ==> cube.min[k] <= p[k] <= cube.max[k]
  }

  // ---------------------------------------------------------------------------
  // Properties of the slab test
  // ---------------------------------------------------------------------------

  /** On an axis whose `lo <= hi`, the swap leaves the entry parameter first. */
  lemma SlabOrdered(o: real, d: real, lo: real, hi: real)
    requires d != 0.0 && lo <= hi
    ensures SlabPair(o, d, lo, hi).0 <= SlabPair(o, d, lo, hi).1
  {
    MultiplyOrder(lo - o, hi - o, 1.0 / d);
  }

  /** Between the two parameters of an axis, the ray is between the two planes. */
  lemma SlabContains(o: real, d: real, lo: real, hi: real, t: real)
    requires d != 0.0
    requires SlabPair(o, d, lo, hi).0 <= t <= SlabPair(o, d, lo, hi).1
    ensures lo <= o + t * d <= hi
  {
    var invD := 1.0 / d;
    var t0, t1 := (lo - o) * invD, (hi - o) * invD;
    UndoReciprocal(lo - o, d);
    UndoReciprocal(hi - o, d);
    if invD < 0.0 {
      assert d < 0.0;
      MultiplyOrder(t1, t, d);
      MultiplyOrder(t, t0, d);
    } else {
      assert d > 0.0;
      MultiplyOrder(t0, t, d);
      MultiplyOrder(t, t1, d);
    }
  }

  /** The window only ever shrinks, and is non-empty once an axis has been processed. */
  lemma {:induction false} WindowShrinks<M>(cube: Cube<M>, ray: Ray, lo: real, hi: Bound, n: nat)
    requires n <= 3 && NonZero(ray.direction)
    ensures var w := Window(cube, ray, lo, hi, n);
      w.Some? ==> lo <= w.value.0
    ensures var w := Window(cube, ray, lo, hi, n);
      n > 0 && w.Some? ==>
        w.value.1.Finite? && w.value.0 < w.value.1.t && hi.Admits(w.value.1.t)
  {
    if n > 0 {
      WindowShrinks(cube, ray, lo, hi, n - 1);
    }
  }

  /** One step of the window: it lies inside both the previous window and the new
      axis's pair of parameters. */
  lemma {:induction false} WindowStep<M>(cube: Cube<M>, ray: Ray, lo: real, hi: Bound, n: nat)
    requires 0 < n <= 3 && NonZero(ray.direction)
    requires Window(cube, ray, lo, hi, n).Some?
    ensures Window(cube, ray, lo, hi, n - 1).Some?
    ensures var w, v := Window(cube, ray, lo, hi, n - 1).value, Window(cube, ray, lo, hi, n).value;
      var slab := Slab(cube, ray, n - 1);
      v.1.Finite? && w.0 <= v.0 && w.1.Admits(v.1.t) && slab.0 <= v.0 && v.1.t <= slab.1
  {
  }

  /** At parameter `t` the ray lies between the two planes of axis `k`. */
  predicate InSlab<M>(cube: Cube<M>, ray: Ray, t: real, k: nat)
    requires k < 3
  {
    cube.min[k] <= ray.origin[k] + t * ray.direction[k] <= cube.max[k]
  }

  /** Between axis `k`'s two parameters, the ray is inside that axis's slab. */
  lemma AxisInside<M>(cube: Cube<M>, ray: Ray, k: nat, t: real)
    requires k < 3 && NonZero(ray.direction)
    requires Slab(cube, ray, k).0 <= t <= Slab(cube, ray, k).1
    ensures InSlab(cube, ray, t, k)
  {
    SlabContains(ray.origin[k], ray.direction[k], cube.min[k], cube.max[k], t);
  }

  /** For every parameter in the window, the ray is inside the slabs processed so far. */
  lemma {:induction false} WindowInsideSlabs<M>(cube: Cube<M>, ray: Ray, lo: real, hi: Bound,
                                                n: nat, t: real)
    requires n <= 3 && NonZero(ray.direction)
    requires var w := Window(cube, ray, lo, hi, n);
      w.Some? && w.value.0 <= t && w.value.1.Admits(t)
    ensures forall k :: 0 <= k < n ==> InSlab(cube, ray, t, k)
  {
    if n > 0 {
      WindowStep(cube, ray, lo, hi, n);
      WindowInsideSlabs(cube, ray, lo, hi, n - 1, t);
      AxisInside(cube, ray, n - 1, t);
    }
  }

  /** Inside all three slabs is inside the box. */
  lemma SlabsMakeInside<M>(cube: Cube<M>, ray: Ray, t: real)
    requires forall k :: 0 <= k < 3 ==> InSlab(cube, ray, t, k)
    ensures Inside(cube, At(ray, t))
  {
    forall k | 0 <= k < 3
      ensures cube.min[k] <= At(ray, t)[k] <= cube.max[k]
    {
      assert InSlab(cube, ray, t, k);
      assert At(ray, t)[k] == ray.origin[k] + t * ray.direction[k];
    }
  }

  /** Once closed, the window stays closed. */
  lemma {:induction false} ClosedStaysClosed<M>(cube: Cube<M>, ray: Ray, lo: real, hi: Bound,
                                                n: nat, m: nat)
    requires n <= m <= 3 && NonZero(ray.direction)
    requires Window(cube, ray, lo, hi, n) == None
    ensures Window(cube, ray, lo, hi, m) == None
    decreases m - n
  {
    if n < m {
      ClosedStaysClosed(cube, ray, lo, hi, n + 1, m);
    }
  }

  // ---------------------------------------------------------------------------
  // Normals
  // ---------------------------------------------------------------------------

  /** The distance from `p` to the nearer of the two faces across axis `k`. */
  function FaceDistance<M>(cube: Cube<M>, p: Float3, k: nat): real
    requires k < 3
  {
    Min(p[k] - cube.min[k], cube.max[k] - p[k])
  }

  /** The vector the source calls the outward normal (cube.rs:36-40). */
  function OutwardNormalAsWritten<M>(cube: Cube<M>, p: Float3): Float3
  {
    [FaceDistance(cube, p, 0), FaceDistance(cube, p, 1), FaceDistance(cube, p, 2)]
  }

  /** The axis of the face nearest to `p` (the first one on a tie). */
  function NearestAxis<M>(cube: Cube<M>, p: Float3): (k: nat)
    ensures k < 3
    ensures forall j :: 0 <= j < 3 ==> FaceDistance(cube, p, k) <= FaceDistance(cube, p, j)
  {
    var d0, d1, d2 := FaceDistance(cube, p, 0), FaceDistance(cube, p, 1), FaceDistance(cube, p, 2);
    if d0 <= d1 && d0 <= d2 then 0 else if d1 <= d2 then 1 else 2
  }

  /** The outward unit normal of the face nearest to `p`: `-e_k` on the `min` face of
      axis `k`, `+e_k` on its `max` face. */
  function OutwardNormal<M>(cube: Cube<M>, p: Float3): Float3
  {
    var k := NearestAxis(cube, p);
    var sign := if p[k] - cube.min[k] <= cube.max[k] - p[k] then -1.0 else 1.0;
    seq(3, j => if j == k then sign else 0.0)
  }

  predicate OnSurface<M>(cube: Cube<M>, p: Float3)
  {
    Inside(cube, p) && exists k :: 0 <= k < 3 && (p[k] == cube.min[k] || p[k] == cube.max[k])
  }

  /** The corrected normal has unit length. */
  lemma OutwardNormalIsUnit<M>(cube: Cube<M>, p: Float3)
    ensures LengthSquared(OutwardNormal(cube, p)) == 1.0
  {
    var n := OutwardNormal(cube, p);
    Dot3(n, n);
  }

  /** At a point of the surface, the corrected normal points out of the box: every point
      of the box lies behind the face's plane. */
  lemma OutwardNormalIsOutward<M>(cube: Cube<M>, p: Float3, q: Float3)
    requires OnSurface(cube, p) && Inside(cube, q)
    ensures Dot(Minus(q, p), OutwardNormal(cube, p)) <= 0.0
  {
    var k := NearestAxis(cube, p);
    var j :| 0 <= j < 3 && (p[j] == cube.min[j] || p[j] == cube.max[j]);
    assert FaceDistance(cube, p, j) == 0.0;
    assert FaceDistance(cube, p, k) == 0.0;
    Dot3(Minus(q, p), OutwardNormal(cube, p));
  }

  // ---------------------------------------------------------------------------
  // The method
  // ---------------------------------------------------------------------------

  /** One pass of the loop body, in terms of the window: narrowing `(lo, hi)` by axis
      `i`'s pair gives the next window, or `None` when it closes. */
  lemma SlabStep<M>(cube: Cube<M>, ray: Ray, tMin: real, tMax: Bound, i: nat,
                    lo: real, hi: Bound, t0: real, t1: real)
    requires i < 3 && NonZero(ray.direction)
    requires Window(cube, ray, tMin, tMax, i) == Some((lo, hi))
    requires t0 == Slab(cube, ray, i).0 && t1 == Slab(cube, ray, i).1
    ensures Window(cube, ray, tMin, tMax, i + 1)
         == if hi.Cap(t1) <= Max(lo, t0) then None else Some((Max(lo, t0), Finite(hi.Cap(t1))))
  {
  }

  /** What a window left open by all three axes says about its entry parameter: it lies
      in `[t_min, t_max)` and the ray is inside the box there. */
  lemma OpenWindow<M>(cube: Cube<M>, ray: Ray, tMin: real, tMax: Bound, lo: real, hi: Bound)
    requires NonZero(ray.direction)
    requires Window(cube, ray, tMin, tMax, 3) == Some((lo, hi))
    ensures tMin <= lo && tMax.Exceeds(lo) && Inside(cube, At(ray, lo))
  {
    WindowShrinks(cube, ray, tMin, tMax, 3);
    WindowInsideSlabs(cube, ray, tMin, tMax, 3, lo);
    SlabsMakeInside(cube, ray, lo);
  }

  /** The first lines of the loop body (cube.rs:23-28): the crossing parameters of one
      axis, swapped in place when the direction is negative. */
  method AxisCrossings(o: real, d: real, lo: real, hi: real) returns (t0: real, t1: real)
    requires d != 0.0
    ensures t0 == SlabPair(o, d, lo, hi).0 && t1 == SlabPair(o, d, lo, hi).1
  {
    var invD := 1.0 / d;
    t0 := (lo - o) * invD;
    t1 := (hi - o) * invD;
    if invD < 0.0 {
      t0, t1 := t1, t0;
    }
  }

  /** The loop of cube.rs:20-34: it narrows `t_min` and `t_max` in place, one axis at a
      time, and gives up as soon as the window closes. The real-valued model needs every
      direction component non-zero (the source divides by them and relies on
      infinities otherwise). */
  method SlabWindow<M>(cube: Cube<M>, ray: Ray, tMin: real, tMax: Bound)
    returns (w: Option<(real, Bound)>)
    requires NonZero(ray.direction)
    ensures w == Window(cube, ray, tMin, tMax, 3)
  {
    var lo, hi := tMin, tMax;
    for i := 0 to 3
      invariant Window(cube, ray, tMin, tMax, i) == Some((lo, hi))
    {
      var t0, t1 := AxisCrossings(ray.origin[i], ray.direction[i], cube.min[i], cube.max[i]);
      SlabStep(cube, ray, tMin, tMax, i, lo, hi, t0, t1);
      lo := Max(lo, t0);
      hi := Finite(hi.Cap(t1));
      if hi.t <= lo {
        ClosedStaysClosed(cube, ray, tMin, tMax, i + 1, 3);
        return None;
      }
    }
    w := Some((lo, hi));
  }

  /** The hit the corrected test reports: the window's entry, with the normal of the
      nearest face. */
  function Intersect<M>(cube: Cube<M>, ray: Ray, tMin: real, tMax: Bound, sqrt: real -> real)
    : (r: Option<Objects.HitRecord<M>>)
    requires IsSqrt(sqrt) && NonZero(ray.direction)
    ensures var w := Window(cube, ray, tMin, tMax, 3);
      (r.Some? <==> w.Some?) && (r.Some? ==> r.value.t == w.value.0)
    ensures r.Some? ==> tMin <= r.value.t && tMax.Exceeds(r.value.t)
    ensures r.Some? ==> r.value.point == At(ray, r.value.t) && Inside(cube, r.value.point)
    ensures r.Some? ==> r.value.uv == None && r.value.material == cube.material
    ensures r.Some? ==>
      (r.value.frontFace <==> Dot(ray.direction, OutwardNormal(cube, r.value.point)) < 0.0)
    ensures r.Some? ==>
      r.value.normal == Objects.FacingNormal(ray.direction, OutwardNormal(cube, r.value.point), sqrt)
    ensures r.Some? ==> Dot(ray.direction, r.value.normal) <= 0.0
  {
    match Window(cube, ray, tMin, tMax, 3)
    case None => None
    case Some(w) =>
      OpenWindow(cube, ray, tMin, tMax, w.0, w.1);
      var point := At(ray, w.0);
      var outward := OutwardNormal(cube, point);
      Some(Objects.HitRecord(point, Objects.FacingNormal(ray.direction, outward, sqrt), w.0,
                             Dot(ray.direction, outward) < 0.0, cube.material, None))
  }

  /** The hit the source reports: the same window's entry, with the vector of per-axis
      face distances in place of the outward normal. */
  function IntersectAsWritten<M>(cube: Cube<M>, ray: Ray, tMin: real, tMax: Bound,
                                 sqrt: real -> real)
    : (r: Option<Objects.HitRecord<M>>)
    requires IsSqrt(sqrt) && NonZero(ray.direction)
    ensures var w := Window(cube, ray, tMin, tMax, 3);
      (r.Some? <==> w.Some?) && (r.Some? ==> r.value.t == w.value.0)
    ensures r.Some? ==> tMin <= r.value.t && tMax.Exceeds(r.value.t)
    ensures r.Some? ==> r.value.point == At(ray, r.value.t) && Inside(cube, r.value.point)
    ensures r.Some? ==> r.value.uv == None && r.value.material == cube.material
    ensures r.Some? ==>
      (r.value.frontFace <==>
       Dot(ray.direction, OutwardNormalAsWritten(cube, r.value.point)) < 0.0)
    ensures r.Some? ==>
      r.value.normal ==
      Objects.FacingNormal(ray.direction, OutwardNormalAsWritten(cube, r.value.point), sqrt)
    ensures r.Some? ==> Dot(ray.direction, r.value.normal) <= 0.0
  {
    match Window(cube, ray, tMin, tMax, 3)
    case None => None
    case Some(w) =>
      OpenWindow(cube, ray, tMin, tMax, w.0, w.1);
      var point := At(ray, w.0);
      var outward := OutwardNormalAsWritten(cube, point);
      Some(Objects.HitRecord(point, Objects.FacingNormal(ray.direction, outward, sqrt), w.0,
                             Dot(ray.direction, outward) < 0.0, cube.material, None))
  }

  /** `hit` with the corrected normal: the slab loop, then the record at the entry. */
  method Hit<M>(cube: Cube<M>, ray: Ray, tMin: real, tMax: Bound, sqrt: real -> real)
    returns (r: Option<Objects.HitRecord<M>>)
    requires IsSqrt(sqrt) && NonZero(ray.direction)
    ensures r == Intersect(cube, ray, tMin, tMax, sqrt)
  {
    var w := SlabWindow(cube, ray, tMin, tMax);
    if w.None? {
      return None;
    }
    var t := w.value.0;
    var point := At(ray, t);
    var outward := OutwardNormal(cube, point);
    var frontFace := Dot(ray.direction, outward) < 0.0;
    r := Some(Objects.HitRecord(point, Objects.FacingNormal(ray.direction, outward, sqrt), t,
                                frontFace, cube.material, None));
  }

  /** `hit` as the source writes it (cube.rs:19-55): the slab loop, then the record at the
      entry with the per-axis distance vector as the outward normal. */
  method HitAsWritten<M>(cube: Cube<M>, ray: Ray, tMin: real, tMax: Bound, sqrt: real -> real)
    returns (r: Option<Objects.HitRecord<M>>)
    requires IsSqrt(sqrt) && NonZero(ray.direction)
    ensures r == IntersectAsWritten(cube, ray, tMin, tMax, sqrt)
  {
    var w := SlabWindow(cube, ray, tMin, tMax);
    if w.None? {
      return None;
    }
    var t := w.value.0;
    var point := At(ray, t);
    var outward := OutwardNormalAsWritten(cube, point);
    var frontFace := Dot(ray.direction, outward) < 0.0;
    r := Some(Objects.HitRecord(point, Objects.FacingNormal(ray.direction, outward, sqrt), t,
                                frontFace, cube.material, None));
  }

  // ---------------------------------------------------------------------------
  // The unit cube, entered through its face x = 0
  // ---------------------------------------------------------------------------

  const UNIT_CUBE: Cube<int> := Cube([0.0, 0.0, 0.0], [1.0, 1.0, 1.0], 0)
  const ENTERING: Ray := Ray([-1.0, 0.5, 0.5], [1.0, 0.1, 0.1])

  /** The ray enters the unit cube at `t = 1`, through `(0, 0.6, 0.6)` on the face
      `x = 0`, and leaves at `t = 2`. */
  lemma EnteringWindow()
    ensures NonZero(ENTERING.direction)
    ensures Window(UNIT_CUBE, ENTERING, 0.001, Infinity, 3) == Some((1.0, Finite(2.0)))
    ensures At(ENTERING, 1.0) == [0.0, 0.6, 0.6]
  {
    assert Slab(UNIT_CUBE, ENTERING, 0) == (1.0, 2.0);
    assert Slab(UNIT_CUBE, ENTERING, 1) == (-5.0, 5.0);
    assert Slab(UNIT_CUBE, ENTERING, 2) == (-5.0, 5.0);
    assert Window(UNIT_CUBE, ENTERING, 0.001, Infinity, 1) == Some((1.0, Finite(2.0)));
    assert Window(UNIT_CUBE, ENTERING, 0.001, Infinity, 2) == Some((1.0, Finite(2.0)));
  }

  /** The source's normal at the entry point has no x-component and points into the
      box, so the ray, which comes from outside, is classified as hitting the back of
      the face (`front_face` false) and the stored normal is flipped along. The
      corrected normal is `(-1, 0, 0)`, met head-on. */
  lemma AsWrittenNormalPointsInward()
    ensures var p := At(ENTERING, 1.0);
      OutwardNormalAsWritten(UNIT_CUBE, p) == [0.0, 0.4, 0.4] &&
      Dot(ENTERING.direction, OutwardNormalAsWritten(UNIT_CUBE, p)) > 0.0 &&
      Dot(Minus([0.0, 1.0, 1.0], p), OutwardNormalAsWritten(UNIT_CUBE, p)) > 0.0
    ensures var p := At(ENTERING, 1.0);
      OutwardNormal(UNIT_CUBE, p) == [-1.0, 0.0, 0.0] &&
      Dot(ENTERING.direction, OutwardNormal(UNIT_CUBE, p)) < 0.0
  {
    EnteringWindow();
    var p := At(ENTERING, 1.0);
    assert OutwardNormalAsWritten(UNIT_CUBE, p) == [0.0, 0.4, 0.4];
    Dot3(ENTERING.direction, [0.0, 0.4, 0.4]);
    assert Minus([0.0, 1.0, 1.0], p) == [0.0, 0.4, 0.4];
    Dot3([0.0, 0.4, 0.4], [0.0, 0.4, 0.4]);
    assert NearestAxis(UNIT_CUBE, p) == 0;
    assert OutwardNormal(UNIT_CUBE, p) == [-1.0, 0.0, 0.0];
    Dot3(ENTERING.direction, [-1.0, 0.0, 0.0]);
  }

  /** At the level of the whole hit: the source reports the entering ray as meeting
      the back of the box at `t = 1`, the corrected test as meeting its front. */
  lemma EnteringHitSides(sqrt: real -> real)
    requires IsSqrt(sqrt)
    ensures NonZero(ENTERING.direction)
    ensures var r := IntersectAsWritten(UNIT_CUBE, ENTERING, 0.001, Infinity, sqrt);
      r.Some? && r.value.t == 1.0 && r.value.point == [0.0, 0.6, 0.6] && !r.value.frontFace
    ensures var r := Intersect(UNIT_CUBE, ENTERING, 0.001, Infinity, sqrt);
      r.Some? && r.value.t == 1.0 && r.value.point == [0.0, 0.6, 0.6] && r.value.frontFace
  {
    EnteringWindow();
    AsWrittenNormalPointsInward();
  }

  // ---------------------------------------------------------------------------
  // Lowering the caller's bound
  // ---------------------------------------------------------------------------

  /** The smaller of a caller's bound `b` and an upper end `h`. */
  function Meet(b: Bound, h: Bound): Bound
  {
    if b.Infinity? then h else Finite(h.Cap(b.t))
  }

  /** Under a bound `b` beyond the unbounded window's entry, the window stays open with
      the same entry, and its upper end is lowered to `b`. */
  lemma {:induction false} WindowUnderBound<M>(cube: Cube<M>, ray: Ray, lo: real, b: Bound,
                                               n: nat)
    requires n <= 3 && NonZero(ray.direction)
    requires var w := Window(cube, ray, lo, Infinity, n); w.Some? && b.Exceeds(w.value.0)
    ensures var w := Window(cube, ray, lo, Infinity, n);
      Window(cube, ray, lo, b, n) == Some((w.value.0, Meet(b, w.value.1)))
  {
    if n > 0 {
      WindowStep(cube, ray, lo, Infinity, n);
      WindowUnderBound(cube, ray, lo, b, n - 1);
    }
  }

  /** Lowering `t_max` to anything strictly beyond the entry reported without an upper
      limit leaves the hit unchanged. */
  lemma NarrowerBoundKeepsHit<M>(cube: Cube<M>, ray: Ray, tMin: real, b: Bound,
                                 sqrt: real -> real)
    requires IsSqrt(sqrt) && NonZero(ray.direction)
    requires var r := Intersect(cube, ray, tMin, Infinity, sqrt); r.Some? && b.Exceeds(r.value.t)
    ensures Intersect(cube, ray, tMin, b, sqrt) == Intersect(cube, ray, tMin, Infinity, sqrt)
  {
    WindowUnderBound(cube, ray, tMin, b, 3);
  }

  /** The same for the hit as written, which reads the same window. */
  lemma NarrowerBoundKeepsHitAsWritten<M>(cube: Cube<M>, ray: Ray, tMin: real, b: Bound,
                                          sqrt: real -> real)
    requires IsSqrt(sqrt) && NonZero(ray.direction)
    requires var r := IntersectAsWritten(cube, ray, tMin, Infinity, sqrt);
      r.Some? && b.Exceeds(r.value.t)
    ensures IntersectAsWritten(cube, ray, tMin, b, sqrt)
         == IntersectAsWritten(cube, ray, tMin, Infinity, sqrt)
  {
    WindowUnderBound(cube, ray, tMin, b, 3);
  }

  /** Strictly: a bound equal to the entry closes the window (`t_max <= t_min`), so the
      box is not reported at a parameter the caller already holds. */
  lemma BoundAtEntryMisses(sqrt: real -> real)
    requires IsSqrt(sqrt)
    ensures NonZero(ENTERING.direction)
    ensures Intersect(UNIT_CUBE, ENTERING, 0.001, Infinity, sqrt).Some?
    ensures Intersect(UNIT_CUBE, ENTERING, 0.001, Finite(1.0), sqrt) == None
  {
    EnteringWindow();
    assert Slab(UNIT_CUBE, ENTERING, 0) == (1.0, 2.0);
    assert Window(UNIT_CUBE, ENTERING, 0.001, Finite(1.0), 1) == None;
    ClosedStaysClosed(UNIT_CUBE, ENTERING, 0.001, Finite(1.0), 1, 3);
  }
}
