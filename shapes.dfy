/** The objects a scene holds (`Vec<Box<dyn Hittable>>` in src/scene/mod.rs) as one sum
    type over the four `Hittable` implementations, and their `hit` as one total function
    the scene's scan can call. The sphere, quad and cube models need their divisors
    non-zero; a shape outside that domain reports no hit here. The quad's and the cube's
    `hit` come in two versions, the source's and the corrected one (see `Quads` and
    `Cubes`); every statement below holds for both. */
module Shapes {
  import opened Prelude
  import opened VectorConstGenerics
  import opened Rays
  import opened Objects
  import Spheres
  import Planes
  import Quads
  import Cubes
  import Scenes

  datatype Shape<M> =
    | SphereShape(sphere: Spheres.Sphere<M>)
    | PlaneShape(plane: Planes.Plane<M>)
    | QuadShape(quad: Quads.Quad<M>)
    | CubeShape(cube: Cubes.Cube<M>)

  /** Which version of the quad and cube tests a scene's shapes run: the program's own
      (`v` measured from `b`, the per-axis distance vector as the cube's normal) or the
      corrected one. */
  datatype Tests = AsWritten | Corrected

  /** Whether the real-valued model of the object's `hit` is defined for the ray: the
      source divides by `|direction|²` and the radius (sphere), by the squared edge
      lengths (quad) and by every direction component (cube). */
  predicate Defined<M>(shape: Shape<M>, ray: Ray)
  {
    match shape
    case SphereShape(s) => Spheres.QuadA(ray) != 0.0 && s.radius != 0.0
    case PlaneShape(_) => true
    case QuadShape(q) => Quads.Proper(q)
    case CubeShape(_) => NonZero(ray.direction)
  }

  /** `Hittable::hit`, dispatched on the shape, with the quad and cube tests of the given
      version. */
  function Hit<M>(sqrt: real -> real, tests: Tests, shape: Shape<M>, ray: Ray, tMin: real,
                  tMax: Bound)
    : (r: Option<HitRecord<M>>)
    requires IsSqrt(sqrt)
    ensures !Defined(shape, ray) ==> r == None
    ensures r.Some? ==> tMin <= r.value.t && tMax.Admits(r.value.t)
    ensures r.Some? ==> r.value.point == At(ray, r.value.t)
  {
    if !Defined(shape, ray) then None
    else
      match shape
      case SphereShape(s) => Spheres.Hit(s, ray, tMin, tMax, sqrt)
      case PlaneShape(pl) => Planes.Hit(pl, ray, tMin, tMax)
      case QuadShape(q) =>
        if tests.AsWritten? then Quads.HitAsWritten(q, ray, tMin, tMax, sqrt)
        else Quads.Hit(q, ray, tMin, tMax, sqrt)
      case CubeShape(c) =>
        if tests.AsWritten? then Cubes.IntersectAsWritten(c, ray, tMin, tMax, sqrt)
        else Cubes.Intersect(c, ray, tMin, tMax, sqrt)
  }

  /** `Hit` as the function value the scene's scan takes. */
  function SceneHit<M>(sqrt: real -> real, tests: Tests)
    : (Shape<M>, Ray, real, Bound) -> Option<HitRecord<M>>
    requires IsSqrt(sqrt)
  {
    (shape: Shape<M>, ray: Ray, tMin: real, tMax: Bound) => Hit(sqrt, tests, shape, ray, tMin, tMax)
  }

  /** Every shape reports only parameters in `[t_min, t_max]`. */
  lemma HitHonoursBound<M(!new)>(sqrt: real -> real, tests: Tests)
    requires IsSqrt(sqrt)
    ensures Scenes.HonoursBound(SceneHit<M>(sqrt, tests))
  {
  }

  /** Lowering `t_max` to anything strictly beyond a shape's unbounded hit keeps that
      hit. */
  lemma HitKeepsFartherHits<M(!new)>(sqrt: real -> real, tests: Tests)
    requires IsSqrt(sqrt)
    ensures Scenes.KeepsFartherHits(SceneHit<M>(sqrt, tests))
  {
    forall shape: Shape<M>, ray: Ray, tMin: real, b: Bound |
      SceneHit(sqrt, tests)(shape, ray, tMin, Infinity).Some? &&
      b.Exceeds(SceneHit(sqrt, tests)(shape, ray, tMin, Infinity).value.t)
      ensures SceneHit(sqrt, tests)(shape, ray, tMin, b)
           == SceneHit(sqrt, tests)(shape, ray, tMin, Infinity)
    {
      match shape
      case SphereShape(s) => Spheres.NarrowerBoundKeepsHit(s, ray, tMin, b, sqrt);
      case PlaneShape(pl) => Planes.NarrowerBoundKeepsHit(pl, ray, tMin, b);
      case QuadShape(q) =>
        if tests.AsWritten? {
          Quads.NarrowerBoundKeepsHitAsWritten(q, ray, tMin, b, sqrt);
        } else {
          Quads.NarrowerBoundKeepsHit(q, ray, tMin, b, sqrt);
        }
      case CubeShape(c) =>
        if tests.AsWritten? {
          Cubes.NarrowerBoundKeepsHitAsWritten(c, ray, tMin, b, sqrt);
        } else {
          Cubes.NarrowerBoundKeepsHit(c, ray, tMin, b, sqrt);
        }
    }
  }

  /** `Scene::hit` over these shapes, starting from `t_max = INFINITY`, returns a hit
      whenever some shape reports one on its own, and it is no farther than that shape's
      hit: the scan finds the nearest surface, with the program's tests and with the
      corrected ones. */
  lemma SceneFindsNearest<M(!new)>(sqrt: real -> real, tests: Tests, objects: seq<Shape<M>>,
                                   ray: Ray, tMin: real, k: nat)
    requires IsSqrt(sqrt) && k < |objects|
    requires Hit(sqrt, tests, objects[k], ray, tMin, Infinity).Some?
    ensures Scenes.NearestHit(objects, SceneHit(sqrt, tests), ray, tMin).Some?
    ensures Scenes.NearestHit(objects, SceneHit(sqrt, tests), ray, tMin).value.t
         <= Hit(sqrt, tests, objects[k], ray, tMin, Infinity).value.t
  {
    HitHonoursBound<M>(sqrt, tests);
    HitKeepsFartherHits<M>(sqrt, tests);
    Scenes.NearestOfAll(objects, SceneHit(sqrt, tests), ray, tMin, k);
  }
}
