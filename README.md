# A verified model of the pathtracer's exact core

This project models the exact, checkable logic of a Monte Carlo path tracer in Dafny:
the vector and matrix algebra, ray evaluation, the four ray–object intersection tests
(sphere, plane, quad, axis-aligned cube), the material rules (hemisphere flip, checkerboard,
mirror reflection, presets), the scene's light sum, nearest-hit scan and depth-bounded
`trace_ray`, and the path tracer's per-pixel buffer fill.

Scalars are Dafny `real`, so rounding, NaN and infinities are idealised away. A vector is a
`seq<real>` (`Float3` and `Float2` are the lengths 3 and 2). The square root, sine and cosine
are function parameters constrained by predicates (`IsSqrt`: `s ≥ 0` and `s·s = x` for
`x ≥ 0`; `IsSinCos`: `sin² + cos² = 1`). Random draws are inputs in `[0, 1)`.

Modules, one per source file:

- `Prelude`: `Option`, the `Bound` of the scan (`+∞` or a finite `t`), and small scalar lemmas.
- `VectorConstGenerics` (src/utils/vector_constgenerics.rs): dot, length, scale, divide,
  normalize, cross, the componentwise operators and their loop-built methods, the
  `*Assign` operators on a `Vector` class, `eq` and the fold-based `partial_cmp`.
- `FixedVector` (src/utils/vector.rs): the same API with an `array` that the `*_assign`
  operators overwrite element by element, the loop-built `scale`/`divide`/`normalize`,
  `length_squared` as `length()²`, and its own `partial_cmp` fold. Its `dot`, `cross`,
  `near_zero` and binary operators have the same bodies as in vector_constgenerics.rs and
  are modelled once, in `VectorConstGenerics`.
- `Matrices` (src/utils/matrix.rs): a `Matrix` class over an `array2`, with the loop-built
  matrix–vector product, column construction and matrix product, against specification
  functions on `seq<seq<real>>`.
- `Rays`, `Objects`, `Spheres`, `Planes`, `Quads`, `Cubes`: `Ray::at`, `ObjectType::from_str`,
  the `HitRecord` shape (generic in the material type) and the four `hit` functions. Each
  `hit` takes `t_max` as a `Bound`, so the scan's first query with `INFINITY` is expressed.
  The cube's slab test is a method with the source's loop, and its hit exists both as
  written and corrected.
- `Shapes` (src/object/mod.rs): the scene's boxed `Hittable` objects as one sum type over
  the four shapes, with a `hit` the scene's scan can take, and the proof that the scan over
  them finds the nearest surface. The quad and cube tests are selected by a `Tests` value:
  `AsWritten` is the program's own `Quad::hit` and `Cube::hit`, `Corrected` the fixed
  versions from "## Findings"; every statement about shapes holds for both.
- `Materials` (src/material/mod.rs): coordinate frame, samplers (as functions of the draws),
  `scatter` as a method that flips the sample in place, `color`, `reflect`, presets and the
  name mapping.
- `PointLights`, `Scenes`, `PathTracers`: the light, the scene (objects' `hit`, lights'
  `illuminate` and the materials' `scatter` are function parameters), and the `PathTracer`
  class whose `Trace` fills a fresh `array` pixel by pixel.

The source files come from different revisions. `Scenes.TraceRay` follows scene/mod.rs and
takes a two-argument `scatter` returning an optional ray. `Materials.Scatter` follows
material/mod.rs and takes a sampler and the draws. `PathTracers` takes the per-sample
colour as a function of the pixel, the sample number, the depth and the sampler, which is
how pathtracer/mod.rs calls `trace_ray`. The plane's record has no `uv` field in
plane.rs, and the model gives it `None`.

## Model

| member | source | states |
|---|---|---|
| VectorConstGenerics.Dot3 | src/utils/vector_constgenerics.rs:40-45 | the fold of products over three components is `a0·b0 + a1·b1 + a2·b2` |
| VectorConstGenerics.DotExample | src/utils/vector_constgenerics.rs:372-377 | `[1,2,3]·[4,5,6] = 32` |
| VectorConstGenerics.Dot | src/utils/vector_constgenerics.rs:40-45 | definition: the fold of componentwise products; its laws are the `Dot*` lemmas and `Dot3` |
| VectorConstGenerics.DotSymmetric | src/utils/vector_constgenerics.rs:40-45 | `a·b = b·a` |
| VectorConstGenerics.DotSelfNonNegative | src/utils/vector_constgenerics.rs:40-45 | `v·v ≥ 0` for every vector |
| VectorConstGenerics.DotPlus | src/utils/vector_constgenerics.rs:40-45 | dot distributes over `+`: `(a+b)·c = a·c + b·c` |
| VectorConstGenerics.DotSumSelf | src/utils/vector_constgenerics.rs:40-45 | `(u+w)·(u+w) = u·u + 2 u·w + w·w` |
| VectorConstGenerics.LengthSquared | src/utils/vector_constgenerics.rs:63-65 | `length_squared` is the dot of the vector with itself and is never negative |
| VectorConstGenerics.Length | src/utils/vector_constgenerics.rs:36-38 | the length is non-negative and its square is `length_squared` |
| VectorConstGenerics.Normalize | src/utils/vector_constgenerics.rs:47-51 | `normalize` keeps the dimension |
| VectorConstGenerics.NormalizeIsScale | src/utils/vector_constgenerics.rs:47-51 | for a non-zero length, `normalize(v) = scale(v, 1/length)` and the length is positive |
| VectorConstGenerics.NormalizeIsUnit | src/utils/vector_constgenerics.rs:47-51 | for a non-zero length, the normalized vector has squared length 1 |
| VectorConstGenerics.NormalizeKeepsDotSign | src/utils/vector_constgenerics.rs:47-51 | `w·normalize(v)` is negative, resp. zero, exactly when `w·v` is |
| VectorConstGenerics.DivideUndoesScale | src/utils/vector_constgenerics.rs:53-61 | `divide(scale(v, s), s) = v` for `s ≠ 0` |
| VectorConstGenerics.Scale | src/utils/vector_constgenerics.rs:53-56 | definition: every component times `s`; `DotScale`, `LengthSquaredScale` and `DivideUndoesScale` state its laws |
| VectorConstGenerics.Divide | src/utils/vector_constgenerics.rs:58-61 | definition: every component divided by `s ≠ 0`; `DivideUndoesScale` shows it inverts `scale` |
| VectorConstGenerics.DotScale | src/utils/vector_constgenerics.rs:40-56 | `scale(a, s)·b = s (a·b)` |
| VectorConstGenerics.DotScaleRight | src/utils/vector_constgenerics.rs:40-56 | `w·scale(v, s) = s (w·v)` |
| VectorConstGenerics.DotScaledSelf | src/utils/vector_constgenerics.rs:40-56 | `scale(v,t)·scale(v,t) = t² (v·v)` |
| VectorConstGenerics.DotAffineSelf | src/utils/vector_constgenerics.rs:40-56 | the squared length of `u + t v` expands as a quadratic in `t` |
| VectorConstGenerics.DotPositiveScaleSign | src/utils/vector_constgenerics.rs:40-56 | scaling by a positive factor keeps the sign of a dot product, both ways |
| VectorConstGenerics.LengthSquaredScale | src/utils/vector_constgenerics.rs:53-65 | `length_squared(scale(v, k)) = k² length_squared(v)` |
| VectorConstGenerics.DotNegated | src/utils/vector_constgenerics.rs:215-227 | `w·(-v) = -(w·v)` |
| VectorConstGenerics.NearZero | src/utils/vector_constgenerics.rs:67-70 | true iff every component has absolute value below `1e-8` |
| VectorConstGenerics.NearZeroExample | src/utils/vector_constgenerics.rs:411-415 | `[1e-9, 1e-9, 1e-9]` is near zero |
| VectorConstGenerics.CrossOrthogonal | src/utils/vector_constgenerics.rs:109-116 | `a × b` has zero dot product with both `a` and `b` |
| VectorConstGenerics.Cross | src/utils/vector_constgenerics.rs:109-116 | definition: the determinant formula; `CrossOrthogonal`, `CrossUnitAxes` and `CrossAntiCommutes` state its laws |
| VectorConstGenerics.CrossUnitAxes | src/utils/vector_constgenerics.rs:417-423 | `e_x × e_y = e_z` |
| VectorConstGenerics.CrossAntiCommutes | src/utils/vector_constgenerics.rs:109-116 | `b × a = -(a × b)` |
| VectorConstGenerics.ZeroIsNeutral | src/utils/vector_constgenerics.rs:260-266 | the default (all-zero) vector is neutral for `+` and has zero dot product with every vector |
| VectorConstGenerics.Plus | src/utils/vector_constgenerics.rs:125-131 | definition of `+` on values: componentwise sum; `Add` computes it with the loop and `OperatorInverses` shows `-` undoes it |
| VectorConstGenerics.Minus | src/utils/vector_constgenerics.rs:149-155 | definition of `-` on values: componentwise difference; computed by `Sub` |
| VectorConstGenerics.Times | src/utils/vector_constgenerics.rs:173-179 | definition of `*` on values: componentwise product; computed by `Mul`, undone by `/` (`OperatorInverses`) |
| VectorConstGenerics.Quotient | src/utils/vector_constgenerics.rs:197-203 | definition of `/` on values: componentwise quotient by a divisor with no zero component; computed by `Div` |
| VectorConstGenerics.Negated | src/utils/vector_constgenerics.rs:221-227 | definition of unary `-`: every component negated; computed by `Neg`, an involution (`OperatorInverses`) |
| VectorConstGenerics.OperatorInverses | src/utils/vector_constgenerics.rs:119-228 | `(a+b)-b = a`, `(a*b)/b = a` when `b` has no zero component, and `-(-a) = a` |
| VectorConstGenerics.Add | src/utils/vector_constgenerics.rs:125-131 | the loop-built sum has `r[i] = a[i] + b[i]` at every index and nothing else |
| VectorConstGenerics.Sub | src/utils/vector_constgenerics.rs:149-155 | the loop-built difference has `r[i] = a[i] - b[i]` at every index |
| VectorConstGenerics.Mul | src/utils/vector_constgenerics.rs:173-179 | the loop-built product has `r[i] = a[i] * b[i]` at every index |
| VectorConstGenerics.Div | src/utils/vector_constgenerics.rs:197-203 | the loop-built quotient has `r[i] = a[i] / b[i]` at every index |
| VectorConstGenerics.Neg | src/utils/vector_constgenerics.rs:221-227 | the loop-built negation has `r[i] = -a[i]` at every index |
| VectorConstGenerics.Vector.constructor | src/utils/vector_constgenerics.rs:32-34 | `new` stores the elements unchanged |
| VectorConstGenerics.Vector.AddAssign | src/utils/vector_constgenerics.rs:138-140 | `x += y` leaves `x` equal to `old x + y` |
| VectorConstGenerics.Vector.SubAssign | src/utils/vector_constgenerics.rs:162-164 | `x -= y` leaves `x` equal to `old x - y` |
| VectorConstGenerics.Vector.MulAssign | src/utils/vector_constgenerics.rs:186-188 | `x *= y` leaves `x` equal to `old x * y` |
| VectorConstGenerics.Vector.DivAssign | src/utils/vector_constgenerics.rs:210-212 | `x /= y` leaves `x` equal to `old x / y` |
| VectorConstGenerics.Eq | src/utils/vector_constgenerics.rs:234-236 | `eq` holds iff the two vectors are equal |
| VectorConstGenerics.TryFoldLastDifference | src/utils/vector_constgenerics.rs:243-257 | the fold keeps its start value when nothing differs, and otherwise returns the order of the last differing index |
| VectorConstGenerics.TryFold | src/utils/vector_constgenerics.rs:243-257 | definition: the `try_fold` over component pairs that keeps `Equal` while they agree and takes the order of each later differing pair; `TryFoldLastDifference` characterizes it |
| VectorConstGenerics.PartialCmp | src/utils/vector_constgenerics.rs:243-257 | definition: the fold started from `Some(Equal)`; `PartialCmpEqual`, `PartialCmpNeverNone` and `PartialCmpDecidedByLastDifference` characterize it |
| VectorConstGenerics.PartialCmpDecidedByLastDifference | src/utils/vector_constgenerics.rs:243-257 | `partial_cmp` is `Less` or `Greater` as the last differing component is smaller or larger |
| VectorConstGenerics.PartialCmpEqual | src/utils/vector_constgenerics.rs:243-257 | `partial_cmp` is `Some(Equal)` iff the vectors are equal |
| VectorConstGenerics.PartialCmpNeverNone | src/utils/vector_constgenerics.rs:243-257 | `partial_cmp` never returns `None` |
| VectorConstGenerics.PartialCmpExamples | src/utils/vector_constgenerics.rs:509-537 | `[1,2,3] < [1,2,4]`, `[2,3,4] > [1,2,3]` and `[1,2,3] < [4,5,6]` |
| FixedVector.Vector.constructor | src/utils/vector.rs:30-32 | `new` stores the elements in a fresh array |
| FixedVector.Vector.Default | src/utils/vector.rs:251-253 | `default` is the all-zero vector |
| FixedVector.Vector.AddAssign | src/utils/vector.rs:114-118 | the in-place loop leaves the array equal to `old self + other` |
| FixedVector.Vector.SubAssign | src/utils/vector.rs:140-144 | the in-place loop leaves the array equal to `old self - other` |
| FixedVector.Vector.MulAssign | src/utils/vector.rs:166-170 | the in-place loop leaves the array equal to `old self * other` |
| FixedVector.Vector.DivAssign | src/utils/vector.rs:192-196 | the in-place loop leaves the array equal to `old self / other` |
| FixedVector.AddAssignExample | src/utils/vector.rs:380-386 | `[1,2,3] += [4,5,6]` gives `[5,7,9]` |
| FixedVector.ScaleInto | src/utils/vector.rs:54-60 | the loop-filled result is `scale(v, s)` |
| FixedVector.DivideInto | src/utils/vector.rs:62-68 | the loop-filled result is `divide(v, s)` |
| FixedVector.NormalizeInto | src/utils/vector.rs:45-52 | the loop-filled result is `normalize(v)` and has squared length 1 |
| FixedVector.SquaredLength | src/utils/vector.rs:70-73 | `length()²` equals the dot of the vector with itself |
| FixedVector.FoldAgreesWithTryFold | src/utils/vector.rs:227-244 | from a live accumulator, this file's fold agrees with the one of vector_constgenerics.rs |
| FixedVector.Fold | src/utils/vector.rs:227-244 | definition: this file's fold over component pairs; `FoldAgreesWithTryFold` and `FoldFromNone` relate it to the other one |
| FixedVector.PartialCmp | src/utils/vector.rs:227-244 | definition: this file's fold started from `Some(Equal)`; `PartialCmpAgrees` characterizes it |
| FixedVector.FoldFromNone | src/utils/vector.rs:227-244 | a lost accumulator stays `None` |
| FixedVector.PartialCmpAgrees | src/utils/vector.rs:227-244 | `partial_cmp` is never `None`, is `Equal` iff the vectors are equal, and the last differing component decides |
| FixedVector.PartialCmpExamples | src/utils/vector.rs:456-468 | `[1,2,3] < [1,2,4]` and `[2,3,4] > [1,2,3]` |
| Matrices.Matrix.constructor | src/utils/matrix.rs:17-19 | `new` stores the rows unchanged |
| Matrices.Matrix.Index | src/utils/matrix.rs:47-49 | `m[i]` is row `i` |
| Matrices.Matrix.IndexMutSet | src/utils/matrix.rs:53-55 | a write through `index_mut(i)` changes entry `(i, j)` and leaves every other entry and row unchanged |
| Matrices.Matrix.MultiplyByVector | src/utils/matrix.rs:21-31 | the loop-built result is `Σ_j m[i][j]·v[j]` at every row |
| Matrices.Matrix.NewFromColumns | src/utils/matrix.rs:33-41 | the nested loops set `elements[j][i] = columns[i][j]` |
| Matrices.FromColumnsShape | src/utils/matrix.rs:33-41 | the result has one row per component and each input array is a column |
| Matrices.FromColumnsTimesVector | src/utils/matrix.rs:21-41 | `new_from_columns([c0,c1,c2])·v = v0·c0 + v1·c1 + v2·c2` |
| Matrices.MatVecExample | src/utils/matrix.rs:130-136 | `[[1,2],[3,4]]·[1,1] = [3,7]` |
| Matrices.MatMulColumns | src/utils/matrix.rs:58-77 | column `j` of `a·b` is `a` times column `j` of `b` |
| Matrices.RowTimesColumn | src/utils/matrix.rs:64-76 | the inner `sum +=` loop computes entry `(i, j)` of the product |
| Matrices.ProductBuffer | src/utils/matrix.rs:64-76 | the triple loop fills every entry with `Σ_k a[i][k]·b[k][j]` |
| Matrices.Matrix.Mul | src/utils/matrix.rs:58-77 | `*` gives the matrix product of the two operands' entries |
| Matrices.MatMulExample | src/utils/matrix.rs:138-150 | the 2×3 by 3×2 example gives `[[58,64],[139,154]]` |
| Matrices.Matrix.Eq | src/utils/matrix.rs:79-89 | `eq` holds iff every entry is equal |
| Rays.At | src/ray/mod.rs:25-27 | `at(t) = origin + direction·t` componentwise |
| Rays.AtZero | src/ray/mod.rs:25-27 | `at(0) = origin` |
| Rays.AtShift | src/ray/mod.rs:25-27 | `at(s + t) = at(s) + direction·t` |
| Rays.AtZeroDirection | src/ray/mod.rs:25-27 | a zero direction gives `at(t) = origin` for every `t` |
| Rays.AtOffset | src/ray/mod.rs:25-27 | `at(t) - origin = direction·t` |
| Rays.AtMeetsPlane | src/ray/mod.rs:25-27 | at `t = ((p - origin)·n)/(direction·n)` the ray lies on the plane through `p` with normal `n` |
| Objects.FromStr | src/object/mod.rs:21-29 | a tag is accepted iff it is one of `sphere`, `quad`, `plane`, `box` |
| Objects.FromStrInvertsTag | src/object/mod.rs:13-29 | every variant is produced by exactly its own tag, so distinct tags give distinct variants |
| Objects.FromStrRejects | src/object/mod.rs:22-27 | differently cased tags, the empty string and `cube` are rejected |
| Objects.FacingNormal | src/object/sphere.rs:43-49 | the normal faces against the ray: the normalized outward normal when `direction·outward < 0`, its negation otherwise |
| Spheres.Hit | src/object/sphere.rs:23-59 | `None` for a negative discriminant; the near root when in range, else the far root when in range, else `None`; `t` in `[t_min, t_max]` (`t_max` possibly infinite), point `at(t)`, front face iff `direction·outward < 0`, normal `±normalize(outward)` facing the ray, no `uv`, own material |
| Spheres.NarrowerBoundKeepsHit | src/object/sphere.rs:34-40 | lowering `t_max` to anything at or beyond the unbounded hit's `t` leaves the hit unchanged |
| Spheres.HalfBRootSolves | src/object/sphere.rs:26-36 | both half-`b` roots solve `a t² + 2 half_b t + c = 0` |
| Spheres.RootsSolveQuadratic | src/object/sphere.rs:24-40 | the near and far roots solve the sphere's quadratic |
| Spheres.RootIsOnSphere | src/object/sphere.rs:24-42 | a root of the quadratic puts `at(t)` at distance `radius` from the centre |
| Spheres.HitIsOnSphere | src/object/sphere.rs:23-59 | every reported point lies on the sphere |
| Spheres.OutwardNormalIsUnit | src/object/sphere.rs:43 | `(p - center)/radius` is a unit vector for a point on the sphere |
| Spheres.ExampleCoefficients | src/object/sphere.rs:24-28 | the head-on ray at the unit sphere has `a = 1`, `half_b = -5`, `c = 24`, discriminant 1 |
| Spheres.HitExample | src/object/sphere.rs:23-59 | that ray hits at `t = 4`, point `(0,0,-1)`, from the front |
| Planes.Hit | src/object/plane.rs:22-38 | a hit iff `|normal·direction| > 1e-6` and the distance is in `[t_min, t_max]` (`t_max` possibly infinite); `t` is the distance, point `at(t)`, always front face, normal unflipped, own material |
| Planes.HitIsOnPlane | src/object/plane.rs:22-38 | every reported point lies on the plane |
| Planes.ParallelRayMisses | src/object/plane.rs:23-24 | any ray whose direction is orthogonal to the normal (in particular one running inside the plane) is never reported, for any range |
| Planes.NarrowerBoundKeepsHit | src/object/plane.rs:26-27 | lowering `t_max` to anything at or beyond the unbounded hit's `t` leaves the hit unchanged |
| Planes.HitExample | src/object/plane.rs:22-38 | a ray dropped onto the floor from height 2 meets it at `t = 2` |
| Quads.Crossing | src/object/quad.rs:23-33 | a crossing iff `|denom| ≥ 1e-8` and `t` is in `[t_min, t_max]`, and then it is `t` |
| Quads.Record | src/object/quad.rs:35-59 | front face iff `denom < 0`, normal `normal` on the front face and its negation otherwise, facing against the ray, point `at(t)`, `uv` the coordinates scaled componentwise |
| Quads.HitAsWritten | src/object/quad.rs:22-60 | the source's test, with `v` measured from `b`: a hit iff there is a crossing and the quad is infinite or both coordinates lie in `[0, 1]`; front face iff `denom < 0`; normal `±normal` facing the ray; own material; `uv` the scaled coordinates |
| Quads.Hit | src/object/quad.rs:22-60 | the same test with `v` measured from `a`; parallel rays give `None`; a finite quad's hits have both coordinates in `[0, 1]`; front face iff `denom < 0`, normal `±normal` facing the ray, own material |
| Quads.NarrowerBoundKeepsHit | src/object/quad.rs:30-33 | lowering `t_max` to anything at or beyond the unbounded hit's `t` leaves the hit unchanged |
| Quads.NarrowerBoundKeepsHitAsWritten | src/object/quad.rs:30-33 | the same for the source's test |
| Quads.HitAtCrossing | src/object/quad.rs:46-59 | an accepted crossing is reported with exactly the record built from it |
| Quads.HitIsOnPlane | src/object/quad.rs:23-35 | both versions report points on the quad's plane |
| Quads.VAsWrittenIsShifted | src/object/quad.rs:42-44 | the source's `v` is the intended `v` minus 1 at every point |
| Quads.CoordinatesOnRectangle | src/object/quad.rs:39-44 | on a rectangle, the point `a + α(d-a) + β(b-a)` has `u = α` and `v = β` |
| Quads.UnitSquareGeometry | src/object/quad.rs:23 | the unit square has non-degenerate edges and normal `(0,0,1)` |
| Quads.DownwardCrossing | src/object/quad.rs:23-44 | a ray dropped at `(x, y)` crosses at `t = 1` with `u = y`, `v = x` and the source's `v = x - 1` |
| Quads.AsWrittenMissesCentre | src/object/quad.rs:42-48 | the source misses the unit square's centre |
| Quads.AsWrittenHitsOutside | src/object/quad.rs:42-48 | the source hits a point half an edge beyond corner `b` |
| Quads.HitCentre | src/object/quad.rs:39-50 | the corrected test hits the centre from the front with `uv = (0.5, 0.5)` |
| Quads.HitMissesOutside | src/object/quad.rs:39-48 | the corrected test misses the point beyond `b` |
| Cubes.Slab | src/object/cube.rs:23-28 | definition: axis `i`'s pair of crossing parameters after the swap; `SlabOrdered` and `SlabContains` state what it means |
| Cubes.Window | src/object/cube.rs:20-34 | definition: the window after `n` axes, the upper end starting at the caller's possibly infinite bound; its properties are the `Window*` lemmas |
| Cubes.SlabOrdered | src/object/cube.rs:24-28 | after the conditional swap, `t0 ≤ t1` on an axis whose `min ≤ max` |
| Cubes.SlabContains | src/object/cube.rs:23-28 | between an axis's two parameters the ray lies between that axis's two planes |
| Cubes.WindowShrinks | src/object/cube.rs:29-33 | each axis can only raise `t_min`; after an axis the upper end is finite, within the caller's bound, and above the entry |
| Cubes.WindowInsideSlabs | src/object/cube.rs:22-34 | inside the window, the ray is inside every slab processed so far |
| Cubes.ClosedStaysClosed | src/object/cube.rs:31-33 | once the window closes it stays closed, so returning at once is right |
| Cubes.SlabStep | src/object/cube.rs:29-33 | one loop pass narrows the window by the axis's pair, or closes it |
| Cubes.OpenWindow | src/object/cube.rs:31-35 | a window left open by all three axes starts in `[t_min, t_max)`, `t_max` possibly infinite, at a point inside the box |
| Cubes.AxisCrossings | src/object/cube.rs:23-28 | the body's `inv_d`, `t0`, `t1` and the in-place swap return exactly the axis's ordered crossing pair `SlabPair` |
| Cubes.SlabWindow | src/object/cube.rs:20-34 | the loop, updating `t_min` and `t_max` in place and returning early when they cross, ends with the window of all three axes |
| Cubes.OutwardNormalAsWritten | src/object/cube.rs:36-40 | definition: the source's vector of per-axis distances to the nearer face; `AsWrittenNormalPointsInward` shows it is not a face normal |
| Cubes.NearestAxis | src/object/cube.rs:36-40 | the chosen axis has the smallest distance from the point to a face |
| Cubes.OutwardNormalIsUnit | src/object/cube.rs:36-40 | the corrected outward normal is a unit axis vector |
| Cubes.OutwardNormalIsOutward | src/object/cube.rs:36-40 | the corrected normal at a surface point has non-positive dot with the direction to any point of the box |
| Cubes.IntersectAsWritten | src/object/cube.rs:19-55 | the source's hit: a hit iff the window survives all three axes; `t` is its entry, in `[t_min, t_max)`; the point is `at(t)` and inside the box; front face iff `direction·d < 0` for the per-axis distance vector `d`; the normal is `±normalize(d)` facing the ray; no `uv`; own material |
| Cubes.HitAsWritten | src/object/cube.rs:19-55 | the source's `hit` (slab loop, then the record with the per-axis distance vector) returns `IntersectAsWritten` |
| Cubes.Intersect | src/object/cube.rs:19-55 | the corrected hit: as `IntersectAsWritten`, but front face and normal `±normalize(n)` come from the nearest face's outward normal `n` |
| Cubes.Hit | src/object/cube.rs:19-55 | the corrected `hit` (same slab loop, then the record with the nearest face's normal) returns `Intersect` |
| Cubes.WindowUnderBound | src/object/cube.rs:20-34 | under a caller's bound strictly beyond the unbounded entry, the window stays open with the same entry and the bound as its upper end |
| Cubes.NarrowerBoundKeepsHit | src/object/cube.rs:19-55 | lowering `t_max` to anything strictly beyond the unbounded hit's `t` leaves the hit unchanged |
| Cubes.NarrowerBoundKeepsHitAsWritten | src/object/cube.rs:19-55 | the same for the source's hit |
| Cubes.BoundAtEntryMisses | src/object/cube.rs:29-33 | a bound equal to the entry closes the window (`t_max <= t_min`), so the strictness above is needed |
| Cubes.EnteringWindow | src/object/cube.rs:22-34 | a ray entering the unit cube through face `x = 0` has window `(1, 2)` and enters at `(0, 0.6, 0.6)` |
| Cubes.EnteringHitSides | src/object/cube.rs:19-55 | for that ray the source's hit is at `t = 1`, point `(0, 0.6, 0.6)`, with `front_face` false; the corrected hit is the same point with `front_face` true |
| Cubes.AsWrittenNormalPointsInward | src/object/cube.rs:36-41 | there the source's normal is `(0, 0.4, 0.4)`, which makes the entering ray a back-face hit; the corrected normal is `(-1, 0, 0)` |
| Materials.HelperAxis | src/material/mod.rs:22-26 | the helper axis is `(0,1,0)` iff `|w.x| > 0.9`, otherwise `(1,0,0)` |
| Materials.HelperAxisNotParallel | src/material/mod.rs:22-28 | for a unit `w` the helper axis is never parallel to `w` |
| Materials.CoordinateSystem | src/material/mod.rs:20-31 | both frame vectors are orthogonal to the normal and to each other |
| Materials.FromLocal | src/material/mod.rs:71-74 | definition: the matrix with columns `(u, normal, v)` times the local sample; `FromLocalHeight` states its height |
| Materials.FromLocalHeight | src/material/mod.rs:71-74 | the second local coordinate becomes the component along the normal |
| Materials.UniformPdf | src/material/mod.rs:35-37 | the uniform pdf is positive and equals `1/(4π)` |
| Materials.CosinePdf | src/material/mod.rs:58-60 | the cosine pdf is `cos θ / π`, non-negative for non-negative `cos θ` |
| Materials.RandomUnitVectorSample | src/material/mod.rs:34-48 | the spherical sample is a unit vector with the uniform pdf |
| Materials.CosineLocal1 | src/material/mod.rs:61-71 | the first cosine sampler's local sample is a unit vector in the upper hemisphere |
| Materials.CosineLocal2 | src/material/mod.rs:85-91 | the second cosine sampler's local sample is a unit vector in the upper hemisphere |
| Materials.Sample | src/material/mod.rs:106-114 | definition: the sampler chosen by the sampling mode; `SampleUniform` and `SampleHemisphere` state what each mode yields |
| Materials.SampleUniform | src/material/mod.rs:34-48 | the uniform sampler yields a unit vector with pdf `1/(4π)` |
| Materials.SampleHemisphere | src/material/mod.rs:57-97 | a cosine sampler yields the frame image of a unit upper-hemisphere sample, with pdf `cos θ / π ≥ 0`, on the normal's side |
| Materials.CosineSampleAbove | src/material/mod.rs:71-76 | a local sample with non-negative height maps to a direction on the normal's side |
| Materials.FlipFaces | src/material/mod.rs:116-118 | scaling by -1 negates, and turns a sample below the surface to one above it |
| Materials.Scatter | src/material/mod.rs:100-127 | the sample is negated exactly when its dot with the normal is negative; the direction is on the normal's side; the origin is `point + direction·0.001`; the pdf is the sampler's |
| Materials.CosineSamplesAreNotFlipped | src/material/mod.rs:116-118 | with a cosine sampler the flip never fires |
| Materials.Frac | src/material/mod.rs:133-134 | `rem_euclid(1.0)` lies in `[0, 1)` and differs from `x` by `floor(x)` |
| Materials.Cell | src/material/mod.rs:136-137 | the grid cell `floor(10·frac)` lies in `0..9` |
| Materials.Color | src/material/mod.rs:129-149 | the albedo unless checkered with `uv`; then black iff the cell sum is even, white iff it is odd |
| Materials.FracPeriodic | src/material/mod.rs:133-134 | `frac(x + 1) = frac(x)` |
| Materials.ColorPeriodic | src/material/mod.rs:129-149 | the checkerboard repeats with period 1 in `u` and in `v` |
| Materials.CheckerAlternates | src/material/mod.rs:136-142 | on a checkered material, moving `u` by one cell (0.1) always changes the colour |
| Materials.Reflect | src/material/mod.rs:151-153 | definition: `v - n·2(v·n)`; `ReflectNegatesNormalPart`, `ReflectPreservesLength` and `ReflectInvolution` state what it does |
| Materials.ReflectNegatesNormalPart | src/material/mod.rs:151-153 | for a unit normal, `reflect(v, n)·n = -(v·n)` |
| Materials.ReflectPreservesLength | src/material/mod.rs:151-153 | for a unit normal, reflection preserves the squared length |
| Materials.ReflectInvolution | src/material/mod.rs:151-153 | for a unit normal, reflecting twice gives the vector back |
| Materials.FromName | src/material/mod.rs:211-222 | a name maps to a preset iff it is one of the seven preset names |
| Materials.PresetTable | src/material/mod.rs:155-236 | only `reflective` has reflectivity 1, only `checkered` is checkered, every other preset shows its albedo, and `default` is `white` |
| Materials.FromColorShowsColor | src/material/mod.rs:224-236 | `from_color` shows its colour, is non-reflective, and `from_color(white)` is the default |
| PointLights.New | src/light/pointlight.rs:10-14 | `new` stores position and colour unchanged |
| PointLights.Illuminate | src/light/pointlight.rs:15-19 | `illuminate` is the stored colour |
| PointLights.IlluminateIgnoresHit | src/light/pointlight.rs:16-18 | the illumination does not depend on the hit record |
| Scenes.LightSum | src/scene/mod.rs:17-23 | definition: the in-order sum of the lights' illumination; computed by `Illuminate`, split by `LightSumConcat` |
| Scenes.Illuminate | src/scene/mod.rs:17-23 | the loop's `+=` total is the in-order sum of every light's illumination, zero without lights |
| Scenes.LightSumConcat | src/scene/mod.rs:17-23 | the sum over two lists of lights is the sum of the two sums |
| Scenes.PointLightSum | src/scene/mod.rs:17-23 | with point lights, the scene's illumination of any hit is the in-order sum of their colours, hence the same for every hit record |
| Scenes.Scan | src/scene/mod.rs:25-35 | definition: the loop state `(closest_so_far, hit_record)` after a prefix of the objects, starting from `INFINITY`; characterized by `ScanRecordIsBound`, `BoundNeverIncreases`, `LastReportWins` |
| Scenes.NearestHit | src/scene/mod.rs:25-35 | definition: the record of the full scan; `NearestOfAll` and `Shapes.SceneFindsNearest` show it is the nearest |
| Scenes.Hit | src/scene/mod.rs:25-35 | the loop's result is the scan's nearest hit, each reported record's `t` becoming the new bound |
| Scenes.ScanRecordIsBound | src/scene/mod.rs:25-35 | the bound is finite exactly when there is a record, and is its `t`; no objects give `None` |
| Scenes.BoundNeverIncreases | src/scene/mod.rs:26-34 | with objects that honour their bound, `closest_so_far` never increases |
| Scenes.NearestIsNearest | src/scene/mod.rs:25-35 | with objects that honour their bound, the result exists and is no farther than any reported hit |
| Scenes.NearestOfAll | src/scene/mod.rs:25-35 | with objects that honour their bound and keep hits beyond a lowered bound, the result exists and is no farther than any object's own unbounded hit |
| Scenes.LastReportWins | src/scene/mod.rs:28-34 | the result is the record of the last object that reported a hit |
| Scenes.TraceRay | src/scene/mod.rs:37-56 | definition of `trace_ray`: black at depth 0 or without a hit; otherwise the illumination, times the deeper trace when the material scatters; its properties are `TraceRayInUnitBox`, `DarkSceneIsBlack` and `NoScatterIsDirect` |
| Scenes.TimesInUnitBox | src/scene/mod.rs:49 | componentwise products of colours in `[0, 1]` stay in `[0, 1]` |
| Scenes.TraceRayInUnitBox | src/scene/mod.rs:37-56 | when the lights' sum stays in `[0, 1]` per component, so does every traced colour, at any depth |
| Scenes.DarkSceneIsBlack | src/scene/mod.rs:37-56 | a scene without lights traces black at every depth |
| Scenes.NoScatterIsDirect | src/scene/mod.rs:43-52 | when the first hit does not scatter, every depth from 1 gives that hit's illumination, or black without a hit |
| Shapes.Hit | src/object/mod.rs:32-34 | `Hittable::hit` dispatched over sphere, plane, quad and cube, the quad and cube running the program's tests (`AsWritten`) or the corrected ones: `None` outside the model's domain; reported `t` in `[t_min, t_max]` with point `at(t)` |
| Shapes.HitHonoursBound | src/object/mod.rs:32-34 | every shape, under either version of the tests, reports only parameters in `[t_min, t_max]`, so the scan's assumption holds for the program's objects |
| Shapes.HitKeepsFartherHits | src/object/mod.rs:32-34 | every shape, under either version of the tests, keeps its unbounded hit under a bound strictly beyond it |
| Shapes.SceneFindsNearest | src/scene/mod.rs:25-35 | over a list of shapes running the program's tests (or the corrected ones), `Scene::hit` from `t_max = INFINITY` finds a hit whenever any shape has one, no farther than that shape's own hit |
| PathTracers.SamplerFor | src/pathtracer/mod.rs:43-53 | `CosineWeightedSample1` without debug; in debug, `RandomUnitVector` iff `x < width/2` and `CosineWeightedSample2` otherwise |
| PathTracers.DebugSplitIsLeftBlock | src/pathtracer/mod.rs:43-53 | in debug mode the uniform sampler covers a block of columns from the left edge |
| PathTracers.IndexMapping | src/pathtracer/mod.rs:30-31 | pixel `index` lies at `x = index % width < width`, `y = index / width < height`, with `y·width + x = index` |
| PathTracers.PixelIndex | src/pathtracer/mod.rs:30-31 | conversely every `(x, y)` of the image is pixel `y·width + x` |
| PathTracers.SampleSum | src/pathtracer/mod.rs:33-55 | definition: the in-order sum of a pixel's samples, each traced at depth 10 with the pixel's sampler; `SumOfEqualSamples` states it |
| PathTracers.Pixel | src/pathtracer/mod.rs:33-57 | definition: the sample sum scaled by `1/samples`; `EqualSamplesGiveThatColor` states it, `Trace` computes it |
| PathTracers.EqualSamplesGiveThatColor | src/pathtracer/mod.rs:33-57 | when every sample of a pixel is `c`, the pixel is `c` |
| PathTracers.SumOfEqualSamples | src/pathtracer/mod.rs:33-55 | `n` equal samples `c` sum to `n·c` |
| PathTracers.PathTracer.constructor | src/pathtracer/mod.rs:13-19 | `new` stores width, height and samples |
| PathTracers.PathTracer.Trace | src/pathtracer/mod.rs:21-64 | a fresh buffer of `width·height` entries, each the sum of its pixel's samples at depth 10 with its sampler, scaled by `1/samples` |

## Left out

- Floating point: rounding, NaN, infinities and `f32` against `f64` are not modelled; every scalar is a `real`. The `FloatSize` is `f32` in scene/mod.rs.
- `π` is the decimal `3.141592653589793`, and sine, cosine and the square root are parameters. The model only knows `sin² + cos² = 1` and `s ≥ 0, s² = x`.
- VectorConstGenerics.Normalize: a zero vector is returned unchanged, where the source divides by zero and produces NaN.
- Spheres.Hit: requires a non-zero direction and a non-zero radius. The source divides by both and gets infinities or NaN otherwise.
- Quads.Hit: requires both edges of the quad to have non-zero length (`Proper`), because the source divides by their squared lengths.
- Quads.HitAsWritten: requires `Proper`, for the same reason.
- FixedVector.NormalizeInto: requires a non-zero length; the source divides by it and yields NaN components.
- Cubes.Hit: requires every direction component to be non-zero. The source divides by them and relies on `±∞` otherwise. The same holds for `Cubes.HitAsWritten`, `Cubes.SlabWindow`, `Cubes.Intersect` and `Cubes.IntersectAsWritten`.
- Shapes.Hit: outside the model's domain (a zero sphere radius or direction, a degenerate quad edge, a zero cube direction component) it reports no hit, where the source computes with infinities or NaN.
- VectorConstGenerics.Divide: requires `s ≠ 0`; the source yields `±∞` or NaN components.
- VectorConstGenerics.Quotient: requires no zero divisor component; the source yields `±∞` or NaN there.
- VectorConstGenerics.Div: requires no zero divisor component, for the same reason.
- VectorConstGenerics.Vector.DivAssign: requires no zero divisor component, for the same reason.
- FixedVector.Vector.DivAssign: requires no zero divisor component, for the same reason.
- FixedVector.DivideInto: requires `s ≠ 0`, for the same reason.
- PathTracers.PathTracer.Trace: requires `samples > 0`. The source divides by `samples` and would write NaN pixels.
- Random draws are inputs constrained to `[0, 1)`. The sampler's draws and the random state threaded through a pixel's samples are folded into the sample number. `get_rng` and the distributions are not modelled.
- The statistical mean-cosine tests in material/mod.rs cannot be stated exactly and are not modelled.
- The camera's `get_ray` (trigonometric floating point) is part of the per-sample colour parameter of `Trace`.
- `denoise_image` is a call into a foreign library; the rayon parallel iteration is modelled as a sequential loop.
- The `println!` in `trace_ray` is a side effect without a result and is not modelled.
- `Vector::from_toml` and `Material::from_toml`'s TOML unwrapping are not modelled. `Materials.FromName` models the name mapping, with `todo!()` as `None`.
- The scan's assumptions on objects (`HonoursBound`, `KeepsFartherHits`) are preconditions of the generic `Scenes` lemmas; `Shapes.HitHonoursBound` and `Shapes.HitKeepsFartherHits` prove them for the four shapes, with the program's tests and with the corrected ones.
- vector_hardcoded.rs, box.rs and triangle_mesh.rs are not part of this model: the first does not compile, box.rs is not in the module tree and repeats the cube's slab test, and the mesh's `hit` is unimplemented.
- main.rs, build.rs and tests/tests.rs are I/O, UI and downloads, and are not part of this model.
- The plane's record lacks `uv` in its revision; `Planes.Hit` reports `None` for it.

## Findings

| source | as written | input that shows it | evidently intended | confidence | as-written member | corrected member |
|---|---|---|---|---|---|---|
| src/object/cube.rs:36-40 | the "outward normal" is the vector of per-axis distances to the nearer face, with no component along the axis of the face that was hit | unit cube, ray from `(-1, 0.5, 0.5)` along `(1, 0.1, 0.1)`: it enters at `(0, 0.6, 0.6)`, the source's normal is `(0, 0.4, 0.4)`, its dot with the direction is positive, so the entering hit is reported as a back face | the unit normal of the nearest face, pointing out of the box | not executed | Cubes.EnteringHitSides | Cubes.OutwardNormalIsOutward |
| src/object/quad.rs:42-44 | `v` is measured from corner `b` (`p - b`) instead of corner `a` | unit square in the `xy`-plane, ray dropped at `(0.5, 0.5)`: `v = -0.5`, so the centre is missed, while a ray dropped at `(1.5, 0.5)` is hit | `v = (b-a)·(p-a)/|b-a|²`, like `u` | not executed | Quads.AsWrittenMissesCentre | Quads.HitCentre |
