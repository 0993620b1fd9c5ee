/** `Scene` of src/scene/mod.rs: a list of objects and a list of lights. The objects'
    `hit`, the lights' `illuminate` and the materials' `scatter` are dynamic calls in
    the source; here they are function parameters, so the scene is generic in the
    object, light and material types. The camera is not part of this model. */
module Scenes {
  import opened Prelude
  import opened VectorConstGenerics
  import opened Rays
  import opened Objects
  import PointLights

  datatype Scene<O, L> = Scene(objects: seq<O>, lights: seq<L>)

  /** The `t_min` `trace_ray` passes to `hit`, keeping a bounced ray off its own
      surface. */
  const SELF_HIT_LIMIT: real := 0.001

  // ---------------------------------------------------------------------------
  // illuminate
  // ---------------------------------------------------------------------------

  /** The sum, in list order, of every light's illumination of the hit. */
  function LightSum<L, M>(lights: seq<L>, illuminate: (L, HitRecord<M>) -> Float3,
                          hit: HitRecord<M>): (c: Float3)
    decreases |lights|
  {
    if |lights| == 0 then Zero(3)
    else Plus(LightSum(lights[..|lights| - 1], illuminate, hit),
              illuminate(lights[|lights| - 1], hit))
  }

  /** `illuminate`: start from zero and `+=` each light's contribution. */
  method Illuminate<O, L, M>(scene: Scene<O, L>, hit: HitRecord<M>,
                             illuminate: (L, HitRecord<M>) -> Float3)
    returns (illumination: Float3)
    ensures illumination == LightSum(scene.lights, illuminate, hit)
  {
    illumination := [0.0, 0.0, 0.0];
    for i := 0 to |scene.lights|
      invariant illumination == LightSum(scene.lights[..i], illuminate, hit)
    {
      assert scene.lights[..i + 1][..i] == scene.lights[..i];
      illumination := Plus(illumination, illuminate(scene.lights[i], hit));
    }
    assert scene.lights[..|scene.lights|] == scene.lights;
  }

  /** Splitting the lights in two splits the sum: component `k` of the total is the sum
      of the two parts' components. */
  lemma {:induction false} LightSumConcat<L, M>(a: seq<L>, b: seq<L>,
                                                illuminate: (L, HitRecord<M>) -> Float3,
                                                hit: HitRecord<M>)
    ensures LightSum(a + b, illuminate, hit)
         == Plus(LightSum(a, illuminate, hit), LightSum(b, illuminate, hit))
    decreases |b|
  {
    if |b| == 0 {
      assert a + b == a;
      ZeroIsNeutral(LightSum(a, illuminate, hit));
    } else {
      var n := |b| - 1;
      assert (a + b)[..|a + b| - 1] == a + b[..n];
      LightSumConcat(a, b[..n], illuminate, hit);
    }
  }

  /** The sum, in list order, of the point lights' colours. */
  function ColorSum(lights: seq<PointLights.PointLight>): Float3
    decreases |lights|
  {
    if |lights| == 0 then Zero(3)
    else Plus(ColorSum(lights[..|lights| - 1]), lights[|lights| - 1].color)
  }

  /** A scene of point lights illuminates every hit with the sum of their colours, so the
      same for any two hits. */
  lemma {:induction false} PointLightSum<M>(lights: seq<PointLights.PointLight>,
                                            h1: HitRecord<M>, h2: HitRecord<M>)
    ensures LightSum(lights, PointLights.Illuminate, h1) == ColorSum(lights)
    ensures LightSum(lights, PointLights.Illuminate, h1)
         == LightSum(lights, PointLights.Illuminate, h2)
    decreases |lights|
  {
    if |lights| > 0 {
      PointLightSum(lights[..|lights| - 1], h1, h2);
    }
  }

  // ---------------------------------------------------------------------------
  // hit
  // ---------------------------------------------------------------------------

  /** `b` is at most `c`. */
  predicate AtMost(b: Bound, c: Bound)
  {
    c.Infinity? || (b.Finite? && b.t <= c.t)
  }

  /** The state of `hit`'s loop after the given objects: `closest_so_far` and
      `hit_record`. Each object is asked for a hit in `[t_min, closest_so_far]`; a hit it
      reports becomes the record, and its `t` the new bound. */
  function Scan<O, M>(objects: seq<O>, hit: (O, Ray, real, Bound) -> Option<HitRecord<M>>,
                      ray: Ray, tMin: real): (s: (Bound, Option<HitRecord<M>>))
    decreases |objects|
  {
    if |objects| == 0 then (Infinity, None)
    else
      var before := Scan(objects[..|objects| - 1], hit, ray, tMin);
      match hit(objects[|objects| - 1], ray, tMin, before.0)
      case Some(record) => (Finite(record.t), Some(record))
      case None => before
  }

  /** `hit`: the scan over every object. */
  function NearestHit<O, M>(objects: seq<O>, hit: (O, Ray, real, Bound) -> Option<HitRecord<M>>,
                            ray: Ray, tMin: real): Option<HitRecord<M>>
  {
    Scan(objects, hit, ray, tMin).1
  }

  /** `hit`, as the source writes it: a loop that updates `closest_so_far` and
      `hit_record`. */
  method Hit<O, L, M>(scene: Scene<O, L>, hit: (O, Ray, real, Bound) -> Option<HitRecord<M>>,
                      ray: Ray, tMin: real)
    returns (hitRecord: Option<HitRecord<M>>)
    ensures hitRecord == NearestHit(scene.objects, hit, ray, tMin)
  {
    var closestSoFar := Infinity;
    hitRecord := None;
    for i := 0 to |scene.objects|
      invariant (closestSoFar, hitRecord) == Scan(scene.objects[..i], hit, ray, tMin)
    {
      assert scene.objects[..i + 1][..i] == scene.objects[..i];
      var r := hit(scene.objects[i], ray, tMin, closestSoFar);
      if r.Some? {
        closestSoFar := Finite(r.value.t);
        hitRecord := r;
      }
    }
    assert scene.objects[..|scene.objects|] == scene.objects;
  }

  /** Every object's `hit` reports only parameters in `[t_min, t_max]`. */
  ghost predicate HonoursBound<O(!new), M>(hit: (O, Ray, real, Bound) -> Option<HitRecord<M>>)
  {
    forall o, ray, tMin, b :: hit(o, ray, tMin, b).Some? ==>
      tMin <= hit(o, ray, tMin, b).value.t && b.Admits(hit(o, ray, tMin, b).value.t)
  }

  /** The bound and the record go together: there is a record exactly when the bound is
      finite, and the bound is its `t`. An empty object list gives no hit. */
  lemma {:induction false} ScanRecordIsBound<O, M>(objects: seq<O>,
                                                   hit: (O, Ray, real, Bound) -> Option<HitRecord<M>>,
                                                   ray: Ray, tMin: real)
    ensures var s := Scan(objects, hit, ray, tMin);
      (s.1.Some? <==> s.0.Finite?) && (s.1.Some? ==> s.0.t == s.1.value.t)
    ensures |objects| == 0 ==> NearestHit(objects, hit, ray, tMin) == None
    decreases |objects|
  {
    if |objects| > 0 {
      ScanRecordIsBound(objects[..|objects| - 1], hit, ray, tMin);
    }
  }

  /** With objects that honour their bound, `closest_so_far` never increases. */
  lemma {:induction false} BoundNeverIncreases<O(!new), M>(objects: seq<O>, i: nat,
                                                     hit: (O, Ray, real, Bound) -> Option<HitRecord<M>>,
                                                     ray: Ray, tMin: real)
    requires HonoursBound(hit) && i <= |objects|
    ensures AtMost(Scan(objects, hit, ray, tMin).0, Scan(objects[..i], hit, ray, tMin).0)
    decreases |objects| - i
  {
    if i < |objects| {
      var n := |objects| - 1;
      assert objects[..n][..i] == objects[..i];
      BoundNeverIncreases(objects[..n], i, hit, ray, tMin);
    } else {
      assert objects[..i] == objects;
    }
  }

  /** The bound object `k` is asked with. */
  function BoundBefore<O, M>(objects: seq<O>, k: nat,
                             hit: (O, Ray, real, Bound) -> Option<HitRecord<M>>,
                             ray: Ray, tMin: real): Bound
    requires k <= |objects|
  {
    Scan(objects[..k], hit, ray, tMin).0
  }

  /** With objects that honour their bound, the result is no farther than any hit an
      object reported, and it lies in `[t_min, closest reported]`. */
  lemma NearestIsNearest<O(!new), M>(objects: seq<O>, hit: (O, Ray, real, Bound) -> Option<HitRecord<M>>,
                               ray: Ray, tMin: real, k: nat)
    requires HonoursBound(hit) && k < |objects|
    requires hit(objects[k], ray, tMin, BoundBefore(objects, k, hit, ray, tMin)).Some?
    ensures NearestHit(objects, hit, ray, tMin).Some?
    ensures NearestHit(objects, hit, ray, tMin).value.t
         <= hit(objects[k], ray, tMin, BoundBefore(objects, k, hit, ray, tMin)).value.t
  {
    var r := hit(objects[k], ray, tMin, BoundBefore(objects, k, hit, ray, tMin));
    assert objects[..k + 1][..k] == objects[..k];
    assert Scan(objects[..k + 1], hit, ray, tMin).0 == Finite(r.value.t);
    BoundNeverIncreases(objects, k + 1, hit, ray, tMin);
    ScanRecordIsBound(objects, hit, ray, tMin);
  }

  /** The record returned is the one the last reporting object produced: when object
      `k` reports a hit and no later object does, the result is object `k`'s record. */
  lemma {:induction false} LastReportWins<O, M>(objects: seq<O>,
                                                hit: (O, Ray, real, Bound) -> Option<HitRecord<M>>,
                                                ray: Ray, tMin: real, k: nat)
    requires k < |objects|
    requires hit(objects[k], ray, tMin, BoundBefore(objects, k, hit, ray, tMin)).Some?
    requires forall j :: k < j < |objects| ==>
      hit(objects[j], ray, tMin, BoundBefore(objects, j, hit, ray, tMin)).None?
    ensures NearestHit(objects, hit, ray, tMin)
         == hit(objects[k], ray, tMin, BoundBefore(objects, k, hit, ray, tMin))
    decreases |objects|
  {
    var n := |objects| - 1;
    assert objects[..n + 1] == objects;
    if k < n {
      forall j | k < j < n
        ensures hit(objects[..n][j], ray, tMin, BoundBefore(objects[..n], j, hit, ray, tMin)).None?
      {
        assert objects[..n][..j] == objects[..j];
      }
      assert objects[..n][..k] == objects[..k];
      LastReportWins(objects[..n], hit, ray, tMin, k);
      assert objects[..n] == objects[..n][..n];
    } else {
      assert objects[..k] == objects[..n];
    }
  }

  /** Every object's `hit` keeps its unbounded hit when `t_max` is lowered to anything
      strictly beyond it. */
  ghost predicate KeepsFartherHits<O(!new), M>(hit: (O, Ray, real, Bound) -> Option<HitRecord<M>>)
  {
    forall o, ray, tMin, b: Bound ::
      (hit(o, ray, tMin, Infinity).Some? && b.Exceeds(hit(o, ray, tMin, Infinity).value.t)) ==>
        hit(o, ray, tMin, b) == hit(o, ray, tMin, Infinity)
  }

  /** The scan finds the nearest hit of all: when the objects honour their bound and keep
      hits beyond a lowered bound, the result is no farther than the hit any single object
      reports on its own, with no upper limit. */
  lemma NearestOfAll<O(!new), M>(objects: seq<O>, hit: (O, Ray, real, Bound) -> Option<HitRecord<M>>,
                                 ray: Ray, tMin: real, k: nat)
    requires HonoursBound(hit) && KeepsFartherHits(hit) && k < |objects|
    requires hit(objects[k], ray, tMin, Infinity).Some?
    ensures NearestHit(objects, hit, ray, tMin).Some?
    ensures NearestHit(objects, hit, ray, tMin).value.t
         <= hit(objects[k], ray, tMin, Infinity).value.t
  {
    var b := BoundBefore(objects, k, hit, ray, tMin);
    var own := hit(objects[k], ray, tMin, Infinity).value.t;
    if b.Exceeds(own) {
      assert hit(objects[k], ray, tMin, b) == hit(objects[k], ray, tMin, Infinity);
      NearestIsNearest(objects, hit, ray, tMin, k);
    } else {
      BoundNeverIncreases(objects, k, hit, ray, tMin);
      ScanRecordIsBound(objects, hit, ray, tMin);
    }
  }

  // ---------------------------------------------------------------------------
  // trace_ray
  // ---------------------------------------------------------------------------

  /** `trace_ray`: black at depth 0 or when nothing is hit from `t = 0.001` on;
      otherwise the lights' illumination of the hit, multiplied componentwise by the
      traced colour of the scattered ray one level deeper when the material scatters. */
  function TraceRay<O, L, M>(scene: Scene<O, L>, ray: Ray, depth: nat,
                             hit: (O, Ray, real, Bound) -> Option<HitRecord<M>>,
                             illuminate: (L, HitRecord<M>) -> Float3,
                             scatter: (Ray, HitRecord<M>) -> Option<Ray>): Float3
    decreases depth
  {
    if depth == 0 then Zero(3)
    else
      match NearestHit(scene.objects, hit, ray, SELF_HIT_LIMIT)
      case None => Zero(3)
      case Some(record) =>
        var color := LightSum(scene.lights, illuminate, record);
        match scatter(ray, record)
        case Some(scattered) =>
          Times(color, TraceRay(scene, scattered, depth - 1, hit, illuminate, scatter))
        case None => color
  }

  /** Each component lies in `[0, 1]`. */
  predicate InUnitBox(c: Float3)
  {
    forall k :: 0 <= k < 3 ==> 0.0 <= c[k] <= 1.0
  }

  /** Colours of the unit box are closed under componentwise products. */
  lemma TimesInUnitBox(a: Float3, b: Float3)
    requires InUnitBox(a) && InUnitBox(b)
    ensures InUnitBox(Times(a, b))
  {
    forall k | 0 <= k < 3 ensures 0.0 <= Times(a, b)[k] <= 1.0 {
      assert Times(a, b)[k] == a[k] * b[k];
      ProductNonNegative(a[k], b[k]);
      MultiplyOrder(b[k], 1.0, a[k]);
      assert b[k] * a[k] <= a[k] <= 1.0;
    }
  }

  /** When the lights never illuminate a hit beyond `[0, 1]` per component, no traced
      colour leaves `[0, 1]` either, at any depth. */
  lemma {:induction false} TraceRayInUnitBox<O, L, M>(scene: Scene<O, L>, ray: Ray, depth: nat,
                                                      hit: (O, Ray, real, Bound) -> Option<HitRecord<M>>,
                                                      illuminate: (L, HitRecord<M>) -> Float3,
                                                      scatter: (Ray, HitRecord<M>) -> Option<Ray>)
    requires forall record :: InUnitBox(LightSum(scene.lights, illuminate, record))
    ensures InUnitBox(TraceRay(scene, ray, depth, hit, illuminate, scatter))
    decreases depth
  {
    if depth > 0 {
      match NearestHit(scene.objects, hit, ray, SELF_HIT_LIMIT)
      case None =>
      case Some(record) =>
        match scatter(ray, record)
        case Some(scattered) =>
          TraceRayInUnitBox(scene, scattered, depth - 1, hit, illuminate, scatter);
          TimesInUnitBox(LightSum(scene.lights, illuminate, record),
                         TraceRay(scene, scattered, depth - 1, hit, illuminate, scatter));
        case None =>
    }
  }

  /** A scene without lights traces black, at any depth. */
  lemma {:induction false} DarkSceneIsBlack<O, L, M>(scene: Scene<O, L>, ray: Ray, depth: nat,
                                                     hit: (O, Ray, real, Bound) -> Option<HitRecord<M>>,
                                                     illuminate: (L, HitRecord<M>) -> Float3,
                                                     scatter: (Ray, HitRecord<M>) -> Option<Ray>)
    requires |scene.lights| == 0
    ensures TraceRay(scene, ray, depth, hit, illuminate, scatter) == Zero(3)
    decreases depth
  {
    if depth > 0 {
      match NearestHit(scene.objects, hit, ray, SELF_HIT_LIMIT)
      case None =>
      case Some(record) =>
        match scatter(ray, record)
        case Some(scattered) =>
          DarkSceneIsBlack(scene, scattered, depth - 1, hit, illuminate, scatter);
          var t := Times(Zero(3), Zero(3));
          assert t == Zero(3);
        case None =>
    }
  }

  /** When the material does not scatter the ray at its first hit, every depth from 1
      on gives the direct illumination of that hit: the recursion stops there. */
  lemma NoScatterIsDirect<O, L, M>(scene: Scene<O, L>, ray: Ray, depth: nat,
                                   hit: (O, Ray, real, Bound) -> Option<HitRecord<M>>,
                                   illuminate: (L, HitRecord<M>) -> Float3,
                                   scatter: (Ray, HitRecord<M>) -> Option<Ray>)
    requires depth > 0
    requires var h := NearestHit(scene.objects, hit, ray, SELF_HIT_LIMIT);
      h.Some? ==> scatter(ray, h.value).None?
    ensures var h := NearestHit(scene.objects, hit, ray, SELF_HIT_LIMIT);
      TraceRay(scene, ray, depth, hit, illuminate, scatter)
      == (if h.Some? then LightSum(scene.lights, illuminate, h.value) else Zero(3))
  {
  }
}
