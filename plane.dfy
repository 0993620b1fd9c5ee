/** `Plane::hit` of src/object/plane.rs: an infinite plane through `point` with the
    stored `normal`, met by a ray unless the ray runs (nearly) parallel to it. */
module Planes {
  import opened Prelude
  import opened VectorConstGenerics
  import opened Rays
  import Objects

  datatype Plane<M> = Plane(point: Float3, normal: Float3, material: M)

  /** A ray is treated as parallel when `|normal · direction|` is at most 1e-6. */
  const PARALLEL_LIMIT: real := 0.000001

  function Denom<M>(pl: Plane<M>, ray: Ray): real
  {
    Dot(pl.normal, ray.direction)
  }

  /** `((point - origin) · normal) / denom`. */
  function Distance<M>(pl: Plane<M>, ray: Ray): real
    requires Denom(pl, ray) != 0.0
  {
    Dot(Minus(pl.point, ray.origin), pl.normal) / Denom(pl, ray)
  }

  /** `hit`. The record the source builds has no `uv` field; it is `None` here. */
  function Hit<M>(pl: Plane<M>, ray: Ray, tMin: real, tMax: Bound): (r: Option<Objects.HitRecord<M>>)
    ensures r.Some? <==>
      Abs(Denom(pl, ray)) > PARALLEL_LIMIT && tMin <= Distance(pl, ray) &&
      tMax.Admits(Distance(pl, ray))
    ensures r.Some? ==> r.value.t == Distance(pl, ray) && r.value.point == At(ray, r.value.t)
    ensures r.Some? ==> r.value.frontFace && r.value.normal == pl.normal
    ensures r.Some? ==> r.value.material == pl.material && r.value.uv == None
  {
    var denom := Denom(pl, ray);
    if Abs(denom) > PARALLEL_LIMIT then
      var distance := Distance(pl, ray);
      if distance >= tMin && tMax.Admits(distance) then
        Some(Objects.HitRecord(At(ray, distance), pl.normal, distance, true, pl.material, None))
      else None
    else None
  }

  /** Every reported point lies on the plane. */
  lemma HitIsOnPlane<M>(pl: Plane<M>, ray: Ray, tMin: real, tMax: Bound)
    ensures var r := Hit(pl, ray, tMin, tMax);
      r.Some? ==> Dot(Minus(r.value.point, pl.point), pl.normal) == 0.0
  {
    if Hit(pl, ray, tMin, tMax).Some? {
      DotSymmetric(pl.normal, ray.direction);
      AtMeetsPlane(ray, pl.point, pl.normal);
    }
  }

  /** A ray parallel to the plane (its direction orthogonal to the normal, so in
      particular a ray running inside the plane) is never reported, whatever the range. */
  lemma ParallelRayMisses<M>(pl: Plane<M>, ray: Ray, tMin: real, tMax: Bound)
    requires Dot(pl.normal, ray.direction) == 0.0
    ensures Hit(pl, ray, tMin, tMax) == None
  {
  }

  /** A ray falling onto the floor from height 2 meets it at `t = 2`. */
  lemma HitExample()
    ensures var r := Hit(Plane([0.0, 0.0, 0.0], [0.0, 1.0, 0.0], 0),
                         Ray([1.0, 2.0, 3.0], [0.0, -1.0, 0.0]), 0.001, Infinity);
      r.Some? && r.value.t == 2.0 && r.value.point == [1.0, 0.0, 3.0]
  {
    var pl := Plane([0.0, 0.0, 0.0], [0.0, 1.0, 0.0], 0);
    var ray := Ray([1.0, 2.0, 3.0], [0.0, -1.0, 0.0]);
    Dot3(pl.normal, ray.direction);
    assert Minus(pl.point, ray.origin) == [-1.0, -2.0, -3.0];
    Dot3(Minus(pl.point, ray.origin), pl.normal);
    assert Distance(pl, ray) == 2.0;
    assert At(ray, 2.0) == [1.0, 0.0, 3.0];
  }

  /** Lowering `t_max` to anything at or beyond the parameter reported without an upper
      limit leaves the hit unchanged. */
  lemma NarrowerBoundKeepsHit<M>(pl: Plane<M>, ray: Ray, tMin: real, b: Bound)
    requires var r := Hit(pl, ray, tMin, Infinity); r.Some? && b.Admits(r.value.t)
    ensures Hit(pl, ray, tMin, b) == Hit(pl, ray, tMin, Infinity)
  {
  }
}
