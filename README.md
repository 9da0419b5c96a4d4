# A verified model of a Rust path tracer

This project models the core of a small Monte Carlo path tracer written in
Rust, in the style of the "Ray Tracing in One Weekend" series. The
renderer intersects rays with a scene of spheres, axis-aligned
rectangles, boxes, parallelograms ("quads") and constant-density volumes.
It accelerates this with a bounding-volume hierarchy (BVH). It scatters
light off Lambertian, metal, dielectric, diffuse-light and isotropic
materials, samples directions through probability density functions, and
writes gamma-corrected pixels as PPM text.

The repository holds two generations of the same API side by side, and
the model keeps them apart:

- The **interval generation** is built on `Vec3` and `Interval`. Its
  `Hittable::hit(ray, interval, &mut HitRecord) -> bool` becomes
  `Scene.Hittable`, a record of closures taking the record in and handing
  it back. It covers `vec3`, `interval`, `hittable`, `hittable_list`,
  `quad`, `constant_medium`, `material`, `pdf`, `onb`, `util`, `color` and
  `perlin`.
- The **nalgebra generation** is built on `Vector3<f64>`. Its
  `hit(ray, t_min, t_max) -> Option<HitRecord>` and
  `bounding_box(t0, t1) -> Option<AABB>` become `Shapes.Shape`. It covers
  `aabb`, `bvh`, `sphere`, `rect`, `cube`, `rotate`, `traslate`, `medium`,
  `texture` and `camera`.

Modelling choices:

- `f64` is modelled as `real`. The infinities that `f64::INFINITY`,
  `f64::MAX` and a division by zero produce are modelled as
  `ExtReals.ExtReal` wherever the source relies on them: interval ends,
  slab distances and the weight of an empty list.
- `sqrt`, `sin`, `cos`, `tan`, `ln` and `powf` are fields of a
  `Floats.Libm` parameter. The ghost predicate `Lawful` states the
  algebraic facts the proofs use (for example `sqrt(x) >= 0` and
  `sqrt(x)^2 == x` for `x >= 0`, and `sin^2 + cos^2 == 1`); nothing is
  assumed of the root of a negative number, and `powf` is left
  uninterpreted.
- Every random draw (`random_double`, `gen::<f64>()`, `gen_range`) is a
  parameter of the operation that makes it, with the range the source
  draws from as a precondition.
- Trait objects behind `Rc`/`Arc` are records of closures. Where the
  source uses a trait's default method, the model uses the default.
- A `&mut HitRecord` is passed in and returned, changed where the source
  changes it.
- The BVH builder sorts a mutable array of object ids in place, as
  `sort_unstable_by` sorts the slice of `Arc<dyn Hittable>`.
- The bounding boxes of the interval generation (`AABB::new`,
  `new_with_point`, `new_with_aabb`, `pad` and `+ Vec3`) live in a file
  that is not part of this model. `Boxes` models them from the way
  `quad`, `constant_medium` and `hittable` call them. Likewise the
  nalgebra `HittableList` is not part of this model; `Cubes.ListHit`
  models the closest-hit loop `Cube` relies on.

Behaviours of the source that are modelled as written, each with a lemma
that exhibits it:

- `RotateY::new` computes the rotated `x` of each corner of the inner
  object's box with a product where the sum belongs, which affects only
  the bounding box (`Hittables.FlatAtAngleZero`).
- `RotateY::hit` rotates the direction back with `-cos` in its `z`
  (`Hittables.RotateYDirectionQuirk`).
- `ConstantMedium::with_texture` and `ConstantMedium::with_color` store
  the density unchanged rather than `-1/density`: a positive density gives
  a negative sampled distance (`ConstantMedia.SignOfDistance`).
- `Quad::hit` passes the record to `is_interior` by copy, so the texture
  coordinates `u` and `v` are never set on the returned record
  (`Quads.IsInterior`).
- `Quad`'s own `pdf_value`/`random` sit in an inherent `impl` block. The
  trait object therefore uses the trait defaults, `0` and `(1, 0, 0)`
  (`Quads.QuadDispatch`).
- `Perlin::permute` works on a copy and loops over the empty range
  `n - 1..0`, so the permutation tables stay the identity
  (`Perlins.GeneratePerm`).
- A rectangle's box is always `[x0, x1] x [y0, y1] x [k - 0.0001, k + 0.0001]`,
  whatever the plane, so a `YZ` rectangle's box misses points the
  rectangle is hit at (`Rects.YZBoxMissesHit`). A BVH finds a hit of one of
  its objects only when the hit point lies inside that object's box
  (`Bvh.FoundIfInside`), so a BVH holding such a rectangle can miss those
  hits, where a scan over the objects would report them.
- `random_in_unit_disk` samples a third coordinate, so its points are not
  in the plane (`Utils.DiskIsNotFlat`).
- `BVHNode::new` on an empty slice recurses without end. The model
  requires a non-empty slice.
- `Rotate`'s box starts from `[f64::MIN, f64::MAX]` and widens from there,
  so it is always at least that wide (`Rotations.RotatedBox`).

## Model

| member | source | states |
|---|---|---|
| Intervals.Interval.Clamp | src/interval.rs:36-44 | on an ordered interval the result lies in `[min, max]`; a contained `x` comes back unchanged; below `min` gives `min`, above `max` gives `max` |
| Intervals.Interval.Size | src/interval.rs:46-48 | `max - min` for finite ends; an empty interval (`+inf` low or `-inf` high) has size `-inf`, an unbounded one `+inf` |
| Intervals.Interval.Expand | src/interval.rs:50-56 | each finite end moves outwards by `delta / 2`; infinite ends stay infinite |
| Intervals.Interval.Shift | src/interval.rs:69-78 | `I + d`: each finite end moves by `d`; infinite ends stay infinite |
| Intervals.WithValues | src/interval.rs:17-19 | the interval contains exactly `[min, max]` and surrounds exactly `(min, max)` |
| Intervals.WithInterval | src/interval.rs:21-26 | the low end is the smaller of the two low ends and the high end the larger of the two high ends |
| Intervals.ShiftLeft | src/interval.rs:80-86 | `d + I` equals `I + d`, and contains `x + d` exactly when `I` contains `x` |
| Intervals.EmptyAndUniverse | src/interval.rs:10-66 | `EMPTY` contains and surrounds nothing, `UNIVERSE` contains and surrounds every real, and `new()` is `EMPTY` |
| Intervals.SurroundsImpliesContains | src/interval.rs:28-34 | the open test implies the closed one |
| Intervals.WithIntervalContains | src/interval.rs:21-26 | the union contains everything either argument contains, and is symmetric |
| Intervals.ExpandSize | src/interval.rs:46-56 | expanding by `delta` grows the size by exactly `delta` |
| Intervals.ShiftContains | src/interval.rs:69-78 | shifting by `d` moves membership by `d` and keeps the size |
| ExtReals.Min | src/interval.rs:23 | `f64::min` on extended reals: a lower bound of both arguments and one of them |
| ExtReals.Max | src/interval.rs:24 | `f64::max` on extended reals: an upper bound of both arguments and one of them |
| ExtReals.Plus | src/interval.rs:74-75 | adding a finite `d` moves a finite value by `d` and leaves an infinity unchanged |
| Floats.Abs | src/vec3.rs:48 | `f64::abs`: non-negative and equal to `x` or `-x` |
| Floats.Min | src/interval.rs:23 | `f64::min`: a lower bound of both arguments and one of them |
| Floats.Max | src/interval.rs:24 | `f64::max`: an upper bound of both arguments and one of them |
| Vectors.Vec3.At | src/vec3.rs:25-33 | `Index<usize>` and the accessors: component 0, 1, 2 is `x`, `y`, `z` |
| Vectors.Vec3.With | src/vec3.rs:73-77 | an `IndexMut` store: component `i` becomes `c`, the other two are kept |
| Vectors.ExtensionalAt | src/vec3.rs:65-71 | two vectors with the same three indexed components are equal |
| Vectors.Neg | src/vec3.rs:79-85 | every component is negated |
| Vectors.Add | src/vec3.rs:87-97 | componentwise sum |
| Vectors.Sub | src/vec3.rs:99-109 | componentwise difference |
| Vectors.Mul | src/vec3.rs:111-121 | componentwise product |
| Vectors.Scale | src/vec3.rs:123-137 | `v * t` and `t * v`: every component times `t` |
| Vectors.Div | src/vec3.rs:139-145 | `v / t`: every component times `t` gives back `v`'s |
| Vectors.DivBy | src/vec3.rs:147-153 | `t / v`: every component times `v`'s gives `t` |
| Vectors.AddAssign | src/vec3.rs:155-161 | after the three component stores the vector is `self + rhs`, and subtracting `rhs` gives the old value back |
| Vectors.Dot | src/vec3.rs:171-173 | the sum of the component products; no contract of its own: `Vectors.DotSymmetric`, `Vectors.DotScale` and `Vectors.LengthSquared` state its properties |
| Vectors.DotSymmetric | src/vec3.rs:171-173 | `dot` is symmetric |
| Vectors.LengthSquared | src/vec3.rs:39-43 | the sum of squares is non-negative and equals `dot(v, v)` |
| Vectors.LengthSquaredPositive | src/vec3.rs:39-43 | a non-zero vector has a positive squared length |
| Vectors.Length | src/vec3.rs:36-38 | the length is non-negative, and positive for a non-zero vector |
| Vectors.LengthSquaredIsSquare | src/vec3.rs:36-43 | the length squared is `length_squared` |
| Vectors.SqrtOfLengthSquared | src/vec3.rs:36-38 | the root of the squared length is non-negative, squares back, and is positive for a non-zero vector |
| Vectors.Cross | src/vec3.rs:175-181 | the cross product, component by component; no contract of its own: `Vectors.CrossOrthogonal` states that it is orthogonal to both arguments |
| Vectors.CrossOrthogonal | src/vec3.rs:175-181 | `cross(u, v)` is orthogonal to both `u` and `v` |
| Vectors.NearZero | src/vec3.rs:46-49 | true exactly when every component has absolute value below `f64::EPSILON` |
| Vectors.UnitVector | src/vec3.rs:183-185 | the unit vector scaled by the length gives the input back |
| Vectors.ScaleLengthSquared | src/vec3.rs:39-43 | scaling by `k` multiplies the squared length by `k * k` |
| Vectors.UnitAfterScaling | src/vec3.rs:183-185 | a vector that scales by `k` to one of squared length `k * k` is a unit vector |
| Vectors.UnitVectorIsUnit | src/vec3.rs:183-185 | `unit_vector` of a non-zero vector has squared length 1 |
| Vectors.DotScale | src/vec3.rs:123-137 | `dot(k * a, b) = k * dot(a, b)` |
| Vectors.UnitVectorOrthogonal | src/vec3.rs:183-185 | normalising keeps a vector orthogonal to whatever it was orthogonal to |
| Vectors.RandomInRange | src/vec3.rs:55-61 | with draws in `[0, 1)`, every component lies in `[min, max)` |
| Vectors.Lerp | src/vec3.rs:57 | `min + (max - min) * u` lies in `[min, max)` for `u` in `[0, 1)` |
| Vectors.DrawInRange | src/vec3.rs:57 | the same bound, as a lemma about the expression |
| Vectors.RandomInUnitSphere | src/vec3.rs:187-194 | the rejection loop returns the first candidate with `length_squared < 1`; every earlier candidate was rejected; with no accepted candidate among the draws the result is `None` |
| Vectors.RandomOnHemisphere | src/vec3.rs:200-206 | the result is the sample or its negation, and its dot with `normal` is never negative; the sample is kept exactly when its dot is positive |
| Vectors.RandomUnitVector | src/vec3.rs:196-198 | the normalised in-sphere point, which scales back to it |
| Rays.Ray.At | src/ray.rs:42-44 | `at(t)` is `origin + t * direction`, componentwise |
| Rays.New | src/ray.rs:11-17 | zero origin, zero direction and time 0, so every `at(t)` is zero |
| Rays.WithOriginAndDirection | src/ray.rs:18-24 | stores origin and direction with time 0 |
| Rays.WithOriginDirectionAndTime | src/ray.rs:25-31 | stores all three; it equals `with_origin_and_direction` exactly when the time is 0 |
| Rays.AtZero | src/ray.rs:42-44 | `at(0)` is the origin |
| Rays.AtAdditive | src/ray.rs:42-44 | `at(s + t) = at(s) + t * direction` |
| Aabb.SurroundingBox | src/aabb.rs:6-18 | the result contains both boxes and lies within every box that contains both (it is the least enclosing box) |
| Aabb.SurroundingBoxContains | src/aabb.rs:6-18 | a point of either box lies in the surrounding box |
| Aabb.SurroundingBoxAlgebra | src/aabb.rs:6-18 | the surrounding box is symmetric in its arguments and idempotent |
| Aabb.Hit | src/aabb.rs:31-44 | the three-axis slab loop with its early `return false` answers exactly the recursive slab test `Hits` |
| Aabb.WindowBounds | src/aabb.rs:37-41 | a window that survives the remaining axes is non-empty and lies inside the window it started from |
| Aabb.HitWindow | src/aabb.rs:31-44 | when the box is hit, the final `t_min, t_max` window is non-empty and inside the requested range |
| Aabb.EmptyRangeMisses | src/aabb.rs:39-41 | an empty or inverted range never reports a hit |
| Aabb.EarlyExit | src/aabb.rs:39-41 | when the first slab already closes the window, the answer is `false` whatever the other axes hold |
| Aabb.SlabOrdered | src/aabb.rs:33-36 | after the swap for a negative `inv_d` the slab's entry is not after its exit |
| Aabb.SlabAdmits | src/aabb.rs:33-36 | a parameter whose point is strictly between the two faces of an axis is strictly inside that axis's slab, including the infinite slabs of a zero direction component |
| Aabb.WindowKeeps | src/aabb.rs:32-42 | a parameter strictly inside every remaining slab and the current window keeps the window open to the end |
| Aabb.HitIfInside | src/aabb.rs:31-44 | a ray that passes strictly inside the box at some `t` in the open range hits it |
| Boxes.Bounds.Axis | src/hittable.rs:101-103 | the interval of axis 0, 1, 2 is `x`, `y`, `z` |
| Boxes.NoBoundsHoldsNothing | src/hittable_list.rs:15 | the box of an empty list holds no point |
| Boxes.WithPoints | src/hittable.rs:117 | the box of two corner points is finite, holds both, and holds exactly the points between their per-axis minimum and maximum |
| Boxes.Union | src/hittable_list.rs:21 | the union holds every point either box holds |
| Boxes.UnionSymmetric | src/hittable_list.rs:21 | the union does not depend on the order of its arguments |
| Boxes.PadAxis | src/quad.rs:27 | an axis narrower than the padding delta is widened by exactly the delta around its old bounds; a wide enough axis is kept |
| Boxes.Pad | src/quad.rs:27 | the padded box is finite, at least the delta wide on every ordered axis, unchanged on wide axes, and holds every point the box held |
| Boxes.Offset | src/hittable.rs:61 | `bbox + displacement` holds a point moved by the offset exactly when the box held the point; finiteness is kept |
| Boxes.ShiftOne | src/hittable.rs:61 | a shifted interval contains `x + d` exactly when the interval contains `x` |
| Boxes.OffsetZero | src/hittable.rs:61 | offsetting by the zero vector changes nothing |
| HittableLists.Query | src/hittable_list.rs:34-42 | one loop step: the object is asked with the range `[ray_t.min, closest_so_far]`; on a hit `hit_anything` is set, the record is copied out and the closest distance becomes its `t`; otherwise record and distance are kept |
| HittableLists.ScanStep | src/hittable_list.rs:33-43 | scanning one more object is one more `Query` on the state the prefix left |
| HittableLists.HitIffReported | src/hittable_list.rs:28-46 | `hit` returns true exactly when some object reported a hit during the scan; with no hit the caller's record is untouched; after a hit the closest distance is the returned record's `t` |
| HittableLists.ScanInRange | src/hittable_list.rs:28-46 | for objects that only report hits inside the range they are given, the returned `t` lies in `ray_t` and the closest distance never exceeds `ray_t.max` |
| HittableLists.ClosestNeverIncreases | src/hittable_list.rs:31-43 | `closest_so_far` never grows as the scan goes on, and stays within `ray_t.max` |
| HittableLists.ScanFindsClosest | src/hittable_list.rs:28-46 | the returned record is the nearest hit: its `t` is in range and no more than the `t` of any hit an object reported |
| HittableLists.PdfMeanBounds | src/hittable_list.rs:52-59 | when every object gives the same value the weighted sum is that value (a non-empty list); non-negative values give a non-negative result |
| HittableLists.PdfSumOfEqual | src/hittable_list.rs:55-57 | the sum of `n` equal values `c` is `n * c` |
| HittableLists.PdfSumNonNegative | src/hittable_list.rs:55-57 | a sum of non-negative values is non-negative |
| HittableLists.HittableList.constructor | src/hittable_list.rs:12-17 | an empty list whose box holds nothing |
| HittableLists.HittableList.Add | src/hittable_list.rs:19-22 | the object is appended and the box becomes the union of the old box and the object's box, holding every point of either |
| HittableLists.HittableList.Clear | src/hittable_list.rs:24-26 | the objects are removed; the box is left as it was |
| HittableLists.HittableList.Hit | src/hittable_list.rs:28-46 | the loop over the objects returns what the scan specification `Scan` gives: the flag and the record |
| HittableLists.HittableList.BoundingBox | src/hittable_list.rs:48-50 | returns the stored box |
| HittableLists.HittableList.PdfValue | src/hittable_list.rs:52-59 | the accumulating loop returns the mean `PdfMean` of the objects' values |
| HittableLists.HittableList.Random | src/hittable_list.rs:61-64 | the index is the floor of the uniform draw in `[0, len)`, is in bounds, and the result is that object's sample |
| Bvh.BoxCompare | src/bvh.rs:20-38 | the comparator panics (`None`) exactly when either object has no box; it never answers `Equal`, and answers `Less` exactly when the first box starts lower on the axis |
| Bvh.SortRange | src/bvh.rs:42 | the slice ends up ordered by the comparator's key and is a permutation of itself; the rest of the array is untouched |
| Bvh.InsertStep | src/bvh.rs:42 | one insertion pass extends the ordered prefix by one element, keeps the multiset and touches nothing outside the prefix |
| Bvh.SplitShrinks | src/bvh.rs:49-53 | for three or more objects both halves at `len / 2` are non-empty and strictly shorter, so the recursion ends |
| Bvh.EmptySliceDoesNotShrink | src/bvh.rs:43-53 | an empty slice falls into the split branch and recurses on halves no shorter than itself |
| Bvh.Build | src/bvh.rs:17-66 | the constructor panics (`None`) exactly when an object of the slice has no box; otherwise the tree is well formed (every node's box holds its children's), its leaves are exactly the slice's objects, one object is both children, two objects are the children in sorted order; the slice is permuted in place and nothing outside it changes |
| Bvh.BuildHalves | src/bvh.rs:49-53 | the two recursive calls on `[0, len/2)` and `[len/2, len)` give well-formed, boxed subtrees whose leaves together are the slice's objects |
| Bvh.AllBoxedNow | src/bvh.rs:55-59 | the box check returns true exactly when every object of the slice has a box |
| Bvh.BoxHoldsLeaves | src/bvh.rs:61-65 | in a well-formed tree every leaf's box lies within the box of every node above it |
| Bvh.NodeHit | src/bvh.rs:70-89 | a ray that misses the node's box gets no hit; a hit comes from one of the children; when either child is hit the node reports a hit, and its `t` is no more than that of either child's hit; of two child hits the left one is returned when its `t` is strictly smaller, the right one otherwise (ties included) |
| Bvh.ChildHit | src/bvh.rs:70-89 | a leaf answers with its object's `hit` (a missing object never hits); an inner node whose box the ray misses never hits |
| Bvh.HitComesFromLeaf | src/bvh.rs:70-89 | every hit a tree reports is the hit of one of its leaves |
| Bvh.FoundIfInside | src/bvh.rs:70-89 | conversely, a valid tree reports a hit whenever one of its objects hits in the open range at a point strictly inside that object's box, and the reported `t` is no larger than that object's; with `HitComesFromLeaf`, the tree's nearest `t` is the scan's for such hits |
| Bvh.InsideWithin | src/bvh.rs:70-71 | a point strictly inside a box is strictly inside every box that holds it |
| Bvh.NodeBoundingBox | src/bvh.rs:91-93 | the node always reports its cached box |
| Bvh.BvhShape | src/bvh.rs:69-94 | as an object, a ray that misses the node's box misses, every hit is the hit of one of the tree's objects with the same bounds, every object hit strictly inside its box within the open range is found with a `t` no larger, and the box is the cached one at any times |
| Hittables.NewTranslate | src/hittable.rs:56-63 | keeps the object and offset; the box is the object's box moved by the offset, holding a moved point exactly when the old box held the point |
| Hittables.OffsetRay | src/hittable.rs:68-69 | the origin moves back by the offset, direction and time are kept, and every point of the new ray moved forward by the offset is the old ray's point |
| Hittables.TranslateHit | src/hittable.rs:67-75 | the object is asked about the offset ray; a miss is returned as the object left it; on a hit only `p` changes, moved forward by the offset |
| Hittables.TranslateHitOnOriginalRay | src/hittable.rs:67-75 | when the object reports a point on the ray it was given, the translated hit is the point at the same `t` on the caller's ray |
| Hittables.TranslateByZero | src/hittable.rs:56-75 | translating by the zero vector changes neither hits nor box |
| Hittables.TranslateRespects | src/hittable.rs:67-75 | a translated object reports hits only inside the range it is given when its object does |
| Hittables.TranslateObject | src/hittable.rs:66-79 | the `Hittable` of a `Translate`: its hit is `TranslateHit`, its box the cached box, and `pdf_value` and `random` are the trait defaults |
| Hittables.CornerY | src/hittable.rs:98-108 | corner `(i, j, k)` takes `y` from the box's `y` bounds by `j`; its `x` is the product `cos * x * sin * z` as written |
| Hittables.TakeInY | src/hittable.rs:110-113 | each running bound becomes the `f64::min`/`f64::max` of itself and the corner's component |
| Hittables.HullAfter | src/hittable.rs:95-116 | the running bounds after `n` corners keep three entries each |
| Hittables.HullHoldsCorners | src/hittable.rs:95-116 | after `n` corners the running bounds enclose every corner seen so far, and after one corner every bound is finite |
| Hittables.TakeInYLoop | src/hittable.rs:110-113 | the loop over `c` computes `TakeInY` |
| Hittables.NewRotateY | src/hittable.rs:89-124 | stores the object, `sin` and `cos` of the angle in radians, and a box that holds all eight transformed corners |
| Hittables.CornerLoop | src/hittable.rs:98-116 | the triple loop over `i, j, k` gives the running bounds after all eight corners |
| Hittables.HullStep | src/hittable.rs:98-116 | taking in corner `n` turns the bounds after `n` corners into those after `n + 1` |
| Hittables.HullBoxHolds | src/hittable.rs:117 | the box of finite running bounds holds every point those bounds enclose |
| Hittables.FlatAtAngleZero | src/hittable.rs:105 | because of the product, at angle 0 every corner has `x = 0` and the box holds no point off the plane `x = 0` |
| Hittables.FlatHull | src/hittable.rs:105 | at angle 0 the running `x` bounds are both 0 after any number of corners |
| Hittables.RotatedRayY | src/hittable.rs:129-138 | the origin turns back about `y`; `y` and time are kept; the direction's `x` and `z` are computed as written, with `- cos * d.z` in the `z` component |
| Hittables.RotateYHit | src/hittable.rs:128-155 | the object is asked about the rotated ray; a miss is returned as the object left it; on a hit `p` and `normal` turn forward about `y` and every other field is kept |
| Hittables.RotateYDirectionQuirk | src/hittable.rs:136 | at angle 0 the origin is kept but the direction's `z` is negated |
| Hittables.RotateYPointRoundTrip | src/hittable.rs:132-133 | for `sin^2 + cos^2 = 1` turning a point forward undoes turning it back |
| Hittables.RotateYObject | src/hittable.rs:127-159 | the `Hittable` of a `RotateY`: its hit is `RotateYHit`, its box the cached box, and `pdf_value` and `random` are the trait defaults |
| Traslations.MovedRay | src/traslate.rs:19 | direction and time are kept, and every point of the moved ray shifted by the offset is the caller's point at the same `t` |
| Traslations.TraslateHit | src/traslate.rs:18-24 | a hit exactly when the inner object hits the moved ray; only `p` changes, shifted by the offset |
| Traslations.HitOnOriginalRay | src/traslate.rs:18-24 | a hit point the inner object puts on the moved ray lies, after the shift, on the caller's ray at the same `t` |
| Traslations.ZeroOffset | src/traslate.rs:18-32 | a zero offset changes neither hits nor boxes |
| Traslations.TraslateBoundingBox | src/traslate.rs:26-32 | a box exactly when the inner object has one, with both corners shifted by the offset |
| Traslations.TraslateShape | src/traslate.rs:17-33 | as an object, it misses exactly when the inner object misses the ray moved by `-offset`, a hit keeps the inner hit's `t`, and there is a box exactly when the inner object has one |
| Traslations.HitStaysInBox | src/traslate.rs:18-32 | when the inner object's hits lie in its box, the translated hits lie in the translated box |
| Rotations.GetAxis | src/rotate.rs:13-19 | three distinct axes; the first names the rotation axis and the other two follow it cyclically |
| Rotations.TurnBack | src/rotate.rs:89-96 | the ray's rotation: axes `a`, `b` become `cos * a + sin * b` and `-sin * a + cos * b`, the third is kept |
| Rotations.TurnForward | src/rotate.rs:103-108 | the hit's rotation: axes `a`, `b` become `cos * a - sin * b` and `sin * a + cos * b`, the third is kept |
| Rotations.TurnRoundTrip | src/rotate.rs:89-108 | for `sin^2 + cos^2 = 1`, turning forward undoes turning back |
| Rotations.TurnBackAlongRay | src/rotate.rs:89-97 | turning back the point at `t` gives the point at `t` of the turned ray, for the axis pairs `get_axis` yields |
| Rotations.TurnBackAdd | src/rotate.rs:89-96 | turning back is additive |
| Rotations.TurnBackScale | src/rotate.rs:89-96 | turning back commutes with scaling, for the axis pairs `get_axis` yields |
| Rotations.RotatedRay | src/rotate.rs:86-97 | the component along the rotation axis, of origin and direction, and the time are kept |
| Rotations.RotateHit | src/rotate.rs:85-113 | a hit exactly when the inner object hits the rotated ray; `p` and `normal` turn forward and keep their rotation-axis component; the other fields are kept |
| Rotations.HitOnOriginalRay | src/rotate.rs:85-113 | for `sin^2 + cos^2 = 1`, a hit point the inner object puts on the rotated ray lies, after turning forward, on the caller's ray at the same `t` |
| Rotations.RotateBoundingBox | src/rotate.rs:115-117 | the box cached by `Rotate::new`, whatever times are asked for |
| Rotations.BoundingBoxIgnoresTimes | src/rotate.rs:115-117 | the cached box does not depend on the times asked for |
| Rotations.Corner | src/rotate.rs:41-46 | the one index `k` picks the box's `min` or `max` for all three coordinates, turned forward about the axis |
| Rotations.Widen | src/rotate.rs:48-66 | the widened box holds the new point and everything the old one held, and is unchanged when the point was already inside |
| Rotations.BoxAfterHoldsCorners | src/rotate.rs:38-69 | the box after the loop holds both distinct corners |
| Rotations.TakeIn | src/rotate.rs:48-66 | the six comparisons widen the running box by the corner |
| Rotations.Lower | src/rotate.rs:48-56 | the three `<` comparisons lower every axis of `min` to the corner's where it is below |
| Rotations.Raise | src/rotate.rs:58-66 | the three `>` comparisons raise every axis of `max` to the corner's where it is above |
| Rotations.RotatedBox | src/rotate.rs:36-72 | starting from `min = f64::MIN`, `max = f64::MAX`, the loops give the box after both corners; it holds them and is never narrower than `[f64::MIN, f64::MAX]` |
| Rotations.BoxAfterStep | src/rotate.rs:38-69 | widening by corner `k` gives the box after `k + 1` corners, and widening the final box by a corner changes nothing |
| Rotations.BoxAfterHoldsWidest | src/rotate.rs:36-37 | the final box contains `[f64::MIN, f64::MAX]` on every axis |
| Rotations.FiniteCornersGiveWidest | src/rotate.rs:36-69 | when both corners lie within `[f64::MIN, f64::MAX]` the box is exactly that range on every axis |
| Rotations.NewRotate | src/rotate.rs:30-81 | stores axis and object, `sin` and `cos` of `(PI / 180) * angle`, and a box exactly when the object has one at times 0 and 1, namely the box after the corner loop |
| Rotations.NewRotatePythagorean | src/rotate.rs:32-34 | the stored `sin` and `cos` satisfy `sin^2 + cos^2 = 1` |
| Rotations.RotateShape | src/rotate.rs:84-118 | as an object, it misses exactly when the inner object misses the rotated ray, a hit keeps the inner hit's `t`, and the box is the cached one at any times |
| Spheres.Lagrange | src/sphere.rs:30-34 | `|u|^2 |v|^2 = (u . v)^2 + |u x v|^2`, which makes the discriminant of `hit` a non-negative multiple of the squared distance test |
| Spheres.ZeroDirection | src/sphere.rs:30-35 | a zero direction gives discriminant 0, so `hit` reports nothing |
| Spheres.ZeroRadius | src/sphere.rs:32-35 | a sphere of radius 0 never has a positive discriminant |
| Spheres.PositiveDiscriminant | src/sphere.rs:34-37 | inside the `discriminant > 0` branch `a > 0` and the radius is non-zero, so both divisions are defined |
| Spheres.RecordAt | src/sphere.rs:39-46 | the record holds `t`, the ray's point at `t`, the material, and a normal that scaled by the radius is `p - center` |
| Spheres.HitCentered | src/sphere.rs:27-61 | a hit exactly when the discriminant is positive and one of the two roots is strictly inside `(t_min, t_max)`; the reported root is the near one when that is in range, else the far one |
| Spheres.QuadraticRoot | src/sphere.rs:37-48 | both `(-b -/+ sqrt(d)) / a` are roots of `a t^2 + 2 b t + c` |
| Spheres.DistanceAt | src/sphere.rs:28-32 | the squared distance from the centre to the point at `t` is `a t^2 + 2 b t + c + radius^2` |
| Spheres.RootsOnSphere | src/sphere.rs:35-48 | both roots put the ray's point on the sphere |
| Spheres.NearBeforeFar | src/sphere.rs:37-48 | the root tried first is strictly the nearer one |
| Spheres.HitNormalIsUnit | src/sphere.rs:40 | the normal `(p - center) / radius` of a hit is a unit vector |
| Spheres.SphereHit | src/sphere.rs:27-61 | a hit lies strictly in the range, on the ray, carries the sphere's material, and its normal scaled by the radius is `p - center` |
| Spheres.CenteredBox | src/sphere.rs:63-68 | the box is `2 * radius` wide on every axis and centred on the centre |
| Spheres.SphereBoundingBox | src/sphere.rs:63-68 | a sphere always has a box, centred on it and `2 * radius` wide |
| Spheres.ComponentSquare | src/sphere.rs:63-68 | each squared component is at most the squared length |
| Spheres.SphereInsideBox | src/sphere.rs:63-68 | every point of a sphere of non-negative radius lies in its box |
| Spheres.SphereHitInBox | src/sphere.rs:27-68 | every hit point of a sphere of non-negative radius lies in its box |
| Spheres.SphereShape | src/sphere.rs:26-69 | as an object, every hit lies strictly in `(t_min, t_max)` and carries the sphere's material, and the box is the one centred on the sphere at any times |
| Spheres.Center | src/sphere.rs:99-102 | a sphere whose two centres coincide stays at that centre at every time |
| Spheres.CenterAtEndpoints | src/sphere.rs:99-102 | the moving centre is `center0` at `time0` and `center1` at `time1` |
| Spheres.MovingSphereHit | src/sphere.rs:106-141 | the hit of the sphere at the centre for the ray's time; hits lie in range and their normals point from that centre |
| Spheres.MovingSphereBoundingBox | src/sphere.rs:143-152 | always the union (`surrounding_box`) of the sphere's boxes at both times, so it holds both |
| Spheres.MovingSphereShape | src/sphere.rs:105-153 | as an object, every hit lies strictly in `(t_min, t_max)` and carries the sphere's material, and there is always a box holding the spheres at both times |
| Rects.Axes | src/rect.rs:40-44 | three distinct axes; the first is the plane's normal axis (0 for `YZ`, 1 for `ZX`, 2 for `XY`) and the other two follow it cyclically |
| Rects.UnitAxis | src/rect.rs:57-58 | the normal is 1 on the plane's axis and 0 on the others |
| Rects.RectRecord | src/rect.rs:45-66 | the record's `t` is the distance to the plane, `p` is the ray's point at `t` and lies on the plane `k`, the normal is the axis unit vector, and `u`, `v` are the fractions of the rectangle's two extents |
| Rects.RectHit | src/rect.rs:39-69 | no hit exactly when the ray runs parallel to the plane, the plane distance is outside the closed range `[t_min, t_max]`, or the plane point is outside the rectangle; a hit is the record above |
| Rects.OnPlane | src/rect.rs:45 | the point at the plane distance lies on the plane |
| Rects.Fraction | src/rect.rs:54-55 | `(x - x0) / (x1 - x0)` times the extent is `x - x0`, and lies in `[0, 1]` for `x` inside an ordered extent |
| Rects.TextureCoordinatesInUnitRange | src/rect.rs:51-55 | on an ordered rectangle a hit has `u` and `v` in `[0, 1]` |
| Rects.RectBoundingBox | src/rect.rs:71-75 | always `[x0, x1] x [y0, y1]` in x and y, with z padded by 0.0001 on either side of `k`, whatever the plane |
| Rects.RectShape | src/rect.rs:38-76 | as an object, every hit lies in `[t_min, t_max]` inside the rectangle, and there is always a box whose third axis strictly surrounds the plane `k` |
| Rects.XYHitInBox | src/rect.rs:39-75 | for an `XY` rectangle every hit point lies in the box |
| Rects.YZBoxMissesHit | src/rect.rs:71-75 | the box ignores the plane: a `YZ` rectangle at `x = 5` is hit at `(5, 0.5, 0.5)`, a point its box does not hold |
| Cubes.NewCube | src/cube.rs:15-80 | six sides share the material: two `XY` rectangles at `p_max.z` and `p_min.z`, two `ZX` at `p_max.y` and `p_min.y`, two `YZ` at `p_max.x` and `p_min.x`, each spanning the box on its other two axes, so every side lies in the box; on a strictly ordered box no side is degenerate |
| Cubes.SideInBox | src/cube.rs:21-74 | a point of a side that spans the box and lies at a plane inside the box's range is inside the box |
| Cubes.ListHit | src/cube.rs:85 | the list of sides reports the nearest hit: it comes from one of the sides, lies in the range, and is no farther than any side's hit |
| Cubes.ListHitFrom | src/cube.rs:85 | the same for the sides from a given index on: the hit comes from one of them, lies in the range, and is no farther than any of their hits |
| Cubes.Narrowing | src/cube.rs:85 | shrinking `t_max` to `t` keeps exactly the side hits at or before `t`, unchanged |
| Cubes.CubeHit | src/cube.rs:84-86 | exactly the sides list's hit with the same bounds: the hit of one of its sides, in the range, and no farther than any side's hit; no hit exactly when no side is hit |
| Cubes.CubeBoundingBox | src/cube.rs:88-93 | always the box `[p_min, p_max]` |
| Cubes.CubeShape | src/cube.rs:83-94 | as an object, every hit lies in `[t_min, t_max]`, it misses exactly when every side misses, and its box is `[p_min, p_max]` at any times |
| Cubes.CubeHitInBox | src/cube.rs:15-93 | on a strictly ordered box every hit point lies in the cube's box |
| Quads.NewQuad | src/quad.rs:21-39 | keeps `q`, `u`, `v` and the material; the normal is the unit vector along `u x v`, orthogonal to both edges; `area` is the positive length of `u x v`; `d` is the plane offset of `q`; `w = n / (n . n)` has `w . n = 1`; the box is the padded box of `q` and `q + u + v`, holding both |
| Quads.ScaleOfDiv | src/quad.rs:25 | scaling `a / t` by `t` gives `a` back |
| Quads.WeightAgainstNormal | src/quad.rs:25 | for a non-zero `n`, `n . n` is non-zero and `(n / (n . n)) . n = 1` |
| Quads.DotOfDiv | src/quad.rs:25 | `(a / t) . b` times `t` is `a . b` |
| Quads.IsInterior | src/quad.rs:41-48 | false exactly when `a` or `b` is outside `[0, 1]`; the record is a copy, so the caller's `u`, `v` are not set through it |
| Quads.QuadHit | src/quad.rs:73-100 | a hit exactly when the ray is not parallel to the plane (by `f64::EPSILON`), the plane parameter is in `ray_t`, and both plane coordinates are in `[0, 1]`; a miss leaves the record alone; a hit sets `t`, the point on the ray, the material and the face normal against the ray, keeps `u` and `v`, and puts the point on the plane |
| Quads.OnPlane | src/quad.rs:80-85 | the point at the plane parameter lies on the plane |
| Quads.DotAdd | src/quad.rs:80 | the dot product distributes over a sum |
| Quads.QuadKeepsToRange | src/quad.rs:73-100 | the quad reports hits only inside the range it is given, and leaves the record alone on a miss |
| Quads.QuadPdfValue | src/quad.rs:50-64 | the density is never negative, and positive exactly when the ray from `origin` along `v` hits the quad from `t = 0.001` on |
| Quads.PositiveQuotient | src/quad.rs:63 | a quotient of positives is positive |
| Quads.PdfTerms | src/quad.rs:60-63 | on a hit both the squared distance and `cosine * area` are positive |
| Quads.NormalAgainstRay | src/quad.rs:76-97 | a ray that passed the parallel test has a non-zero dot with the face normal, whichever way the normal faces |
| Quads.DotNeg | src/quad.rs:30-34 | the dot product with a negated vector is negated |
| Quads.CosineTerm | src/quad.rs:61-63 | for a non-zero `v` not orthogonal to the normal and a positive area, `|v . n / |v|| * area` is positive |
| Quads.QuadRandom | src/quad.rs:66-69 | the sample direction added to `origin` is the point `q + d1 u + d2 v` |
| Quads.CrossCombination | src/quad.rs:87-88 | crossing `a u + b v` with `v` gives `a (u x v)`, and `u` with it gives `b (u x v)` |
| Quads.CrossCombinationLeft | src/quad.rs:87 | the left half of `CrossCombination` |
| Quads.CrossAddLeft | src/quad.rs:87 | the cross product distributes over a sum on the left |
| Quads.CrossScaleLeft | src/quad.rs:87 | a scale factor on the left comes out of the cross product |
| Quads.CrossCombinationRight | src/quad.rs:88 | the right half of `CrossCombination` |
| Quads.CrossAddRight | src/quad.rs:88 | the cross product distributes over a sum on the right |
| Quads.CrossScaleRight | src/quad.rs:88 | a scale factor on the right comes out of the cross product |
| Quads.PlaneCoordinates | src/quad.rs:85-88 | the coordinates `alpha`, `beta` of `q + a u + b v` are `a` and `b` |
| Quads.SampleIsHit | src/quad.rs:66-100 | a sample drawn by `random` is hit at `t = 1` by the ray from `origin` towards it, unless that ray is parallel to the plane |
| Quads.SampleOnPlane | src/quad.rs:24-27 | every point `q + a u + b v` lies on the quad's plane |
| Quads.QuadDispatch | src/quad.rs:72-105 | the quad as a `Hittable` hits like `QuadHit`, has the cached box, and uses the trait's default `pdf_value` (0) and `random` (`(1, 0, 0)`), not the inherent methods of the same name |
| Quads.LowCorner | src/quad.rs:110-114 | componentwise `f64::min` of the two points |
| Quads.HighCorner | src/quad.rs:115-119 | componentwise `f64::max`, never below the low corner and strictly above it where the points differ |
| Quads.Faces | src/quad.rs:121-160 | the six corner-and-edge triples of the box's faces |
| Quads.EdgesAreProper | src/quad.rs:121-160 | with positive `dx`, `dy`, `dz` every face's two edges have a non-zero cross product |
| Quads.FacesAreProper | src/quad.rs:110-160 | for points distinct on every axis all six faces are proper quads; the first face reaches the high corner and the fourth starts at the low corner |
| Quads.BoxSides | src/quad.rs:107-163 | returns a new list of exactly the six face quads in the source's order, all with the material, and its box holds both corners of the box |
| Quads.AddQuad | src/quad.rs:125-160 | one `sides.add(Quad::new(..))`: the quad is appended and the list's box grows to hold it |
| Media.HitDistance | src/medium.rs:40 | `-(1 / density) * ln(draw)` is positive for a draw in `(0, 1)`; at a draw of 0 the logarithm is `-inf`, the distance is infinite and no scatter happens (`None`) |
| Media.ProductOfSigns | src/medium.rs:40 | a positive factor times a negative logarithm, negated, is positive |
| Media.MediumHit | src/medium.rs:28-56 | the method with its clamps and early exits returns the scatter record `MediumRecord` specifies |
| Media.MediumRecord | src/medium.rs:38-51 | a record exactly when the boundary is crossed and the drawn distance falls inside; its `t` is the entry plus the drawn distance over the direction's length, strictly between entry and exit; it lies on the ray, with normal `(1, 0, 0)`, `u = v = 0` and the phase function |
| Media.MediumCrossing | src/medium.rs:30-41 | the entry is the first boundary hit over `(-f64::MAX, f64::MAX)` clamped up to `t_min`, the exit the next hit from `entry + 0.0001` clamped down to `t_max`; entry before exit and the drawn distance is shorter than the stretch inside |
| Media.InsideStretch | src/medium.rs:41-42 | a distance shorter than the stretch puts `t` strictly between entry and exit |
| Media.MissWithoutCrossing | src/medium.rs:30 | a ray that misses the boundary, or a zero draw, scatters nowhere |
| Media.MediumBoundingBox | src/medium.rs:58-60 | the medium has its boundary's box |
| ConstantMedia.WithTexture | src/constant_medium.rs:14-20 | keeps the boundary, stores the density argument unchanged as `neg_inv_density`, and wraps the texture in an isotropic phase function |
| ConstantMedia.WithColor | src/constant_medium.rs:22-28 | the same as `with_texture` with a solid-colour texture |
| ConstantMedia.Enter | src/constant_medium.rs:51-53 | the entry clipped up to `ray_t.min`, never `-inf` |
| ConstantMedia.Exit | src/constant_medium.rs:54-56 | the exit clipped down to `ray_t.max`, never `+inf` |
| ConstantMedia.Start | src/constant_medium.rs:51-64 | travel starts at the clipped entry, or at 0 when that is behind the origin; it is before the clipped exit unless the exit is not ahead of the origin |
| ConstantMedia.Stop | src/constant_medium.rs:54-56 | travel stops at the clipped exit, within `ray_t.max` and not after the second crossing |
| ConstantMedia.Hit | src/constant_medium.rs:32-81 | no hit when either boundary query misses; otherwise a hit exactly when the clipped span is non-empty and the sampled distance fits in it; a miss leaves the record alone; a hit sets `t`, the point, the normal `(1, 0, 0)`, `front_face` and the phase function and keeps `u`, `v`; a positive stored density always scatters before the start, one at most 0 scatters within `ray_t` |
| ConstantMedia.ClippedTravel | src/constant_medium.rs:51-81 | travel over the clipped span gives the outcome stated in terms of the boundary crossings |
| ConstantMedia.Travel | src/constant_medium.rs:66-80 | the sampled distance decides the hit, and a hit is placed at `start + hit_distance / ray_length` with the record's other fields |
| ConstantMedia.HitDistance | src/constant_medium.rs:68 | for a draw in `(0, 1)`, whose `ln` is negative, the sampled distance has the opposite sign of the stored density; a draw of 1 gives distance 0 |
| ConstantMedia.SignOfDistance | src/constant_medium.rs:68-72 | with a positive stored density the sampled distance is negative, so it always fits in a span that is not negative |
| ConstantMedia.QuotientStep | src/constant_medium.rs:74 | `(s + h / l) * l = s * l + h` |
| ConstantMedia.SignedDistance | src/constant_medium.rs:68-74 | a positive stored density places the hit before the start; one at most 0 places it between start and stop |
| ConstantMedia.MediumBoundingBox | src/constant_medium.rs:83-85 | the medium has its boundary's box |
| Materials.LambertianColor | src/material.rs:32-36 | a Lambertian material whose albedo is the solid colour everywhere |
| Materials.NewMetal | src/material.rs:64-69 | keeps the colour and caps the fuzz at 1: a fuzz below 1 is kept, anything else becomes 1 |
| Materials.DiffuseLightColor | src/material.rs:142-146 | a light whose emission is the solid colour everywhere |
| Materials.IsotropicColor | src/material.rs:163-167 | an isotropic material whose albedo is the solid colour everywhere |
| Materials.Emitted | src/material.rs:16-18 | black for every material but a light; a light is black from behind and emits its texture's value at `(u, v, p)` from the front |
| Materials.ScatteringPdf | src/material.rs:22-24 | never negative; for a Lambertian surface `cos_theta / PI` when the cosine is positive and 0 otherwise; for an isotropic medium the sphere density `1 / (4 PI)`; 0 for every other material |
| Materials.UnitVectorOfUnit | src/material.rs:50 | normalising a unit vector gives it back |
| Materials.LambertianMatchesCosinePdf | src/material.rs:45-55 | the Lambertian scattering density equals the value of the cosine PDF it scatters with, for a unit normal |
| Materials.Reflectance | src/material.rs:98-102 | Schlick's approximation `r0 + (1 - r0) (1 - cosine)^5` |
| Materials.R0 | src/material.rs:99-100 | `((1 - n) / (1 + n))^2` lies in `[0, 1)` for a positive index and is 0 exactly at index 1 |
| Materials.R0Bounds | src/material.rs:99-100 | the same bound, for the quotient before it is squared |
| Materials.ReflectanceBounds | src/material.rs:98-102 | when the fifth power lies in `[0, 1]` the reflectance lies between `r0` and 1 |
| Materials.RefractionRatio | src/material.rs:110-114 | positive; the inverse of `ir` on the front face, `ir` itself on the back |
| Materials.CosTheta | src/material.rs:117 | `min(-unit . normal, 1)` is at most 1, and at least -1 when the dot is |
| Materials.SinTheta | src/material.rs:118 | `sqrt(1 - cos^2)` lies in `[0, 1]` when the cosine is at least -1 (below -1 the root is NaN in the source) |
| Materials.Scatter | src/material.rs:19-21 | every material but a light scatters, and a light leaves the record alone; Lambertian and isotropic set the albedo's value and a cosine or sphere PDF and keep the old ray; metal reflects the unit direction plus `fuzz` times the sphere sample; dielectric is white and reflects when it cannot refract or when the reflectance beats the draw, and refracts otherwise; skipped-PDF rays start at the hit point at the incoming ray's time |
| Materials.TotalInternalReflection | src/material.rs:120-125 | when `ratio * sin_theta > 1` the dielectric reflects, whatever the draw |
| Materials.EnteringCanRefract | src/material.rs:110-120 | entering a dielectric of index at least 1 never counts as total internal reflection |
| Materials.SineBound | src/material.rs:116-118 | for a unit normal `sin_theta` lies in `[0, 1]` |
| Materials.NoTotalReflection | src/material.rs:120 | a ratio and a sine both at most 1 never trigger `cannot_refract` |
| Materials.CosineOfUnits | src/material.rs:116-117 | for a unit normal `cos_theta` is at least -1 |
| Materials.SineInRange | src/material.rs:118 | `sqrt(1 - c^2)` lies in `[0, 1]` for `c` in `[-1, 1]` |
| Materials.CauchySchwarzUnit | src/material.rs:117 | the dot product of two unit vectors lies in `[-1, 1]` |
| Materials.MetalMirror | src/material.rs:73-84 | a metal without fuzz reflects: the scattered direction's normal component is the negated normal component of the unit incoming direction |
| Materials.MetalFuzz | src/material.rs:77-80 | the fuzzed direction lies within `fuzz` of the mirror direction |
| Materials.FuzzOffset | src/material.rs:77-80 | adding `fuzz` times a point of the open unit ball moves a vector by at most `fuzz` |
| Pdfs.DefaultValue | src/pdf.rs:6-8 | the trait's default density is 0 |
| Pdfs.DefaultGenerate | src/pdf.rs:9-11 | the trait's default sample is the zero vector |
| Pdfs.NewCosine | src/pdf.rs:19-23 | a cosine PDF over an orthonormal basis whose `w` is the unit vector of the normal |
| Pdfs.NewHittable | src/pdf.rs:59-64 | keeps the objects and the origin |
| Pdfs.NewMixture | src/pdf.rs:81-83 | keeps the two component PDFs |
| Pdfs.SphereDensity | src/pdf.rs:45-47 | `1 / (4 PI)` lies strictly between 0 and 1 |
| Pdfs.CosineValue | src/pdf.rs:27-30 | `max(0, cos / PI)` is never negative; for a zero direction it is 0; otherwise it is positive exactly when the unit direction leans towards `w`, and then times `PI` it is that cosine |
| Pdfs.QuotientSign | src/pdf.rs:29 | dividing by a positive number keeps the sign and multiplies back |
| Pdfs.Value | src/pdf.rs:26-89 | dispatches `value`: the cosine value, the sphere density, or the objects' `pdf_value` at the origin |
| Pdfs.ValueNonNegative | src/pdf.rs:26-89 | the value of any PDF is non-negative when the objects of its hittable parts give non-negative densities |
| Pdfs.MixtureValue | src/pdf.rs:87-89 | the even mixture lies between its components, is non-negative when both are, and equals them when they agree |
| Pdfs.Generate | src/pdf.rs:31-95 | dispatches `generate` on a sequence of draws: the cosine direction mapped into the basis, the normalised in-sphere sample, or the objects' `random` at the origin |
| Pdfs.MixtureGenerate | src/pdf.rs:90-96 | a choice draw below 0.5 samples the first component, otherwise the second, from the remaining draws |
| Pdfs.CosineSampleAbove | src/pdf.rs:31-33 | a cosine sample never points below the basis's `w` |
| Pdfs.SphereSampleIsUnit | src/pdf.rs:48-50 | a sphere sample is a unit vector |
| Onbs.Onb.Index | src/onb.rs:42-48 | axis 0, 1, 2 is `u`, `v`, `w` |
| Onbs.Onb.Vec3Local | src/onb.rs:22-24 | `vec3_local(a)` is `f64_local(a.x, a.y, a.z)` |
| Onbs.Helper | src/onb.rs:28-32 | the helper axis is `y` exactly when the unit `w` has `|x| > 0.9`, else `x`, and it is never parallel to a unit `w` |
| Onbs.HelperNotParallel | src/onb.rs:28-33 | a unit `w` with `|x| <= 0.9` is not parallel to the `x` axis |
| Onbs.CrossXAxis | src/onb.rs:33 | `w x (1, 0, 0)` is `(0, w.z, -w.y)` |
| Onbs.CrossLengthSquared | src/onb.rs:33-34 | `|a x b|^2 = |a|^2 |b|^2 - (a . b)^2` |
| Onbs.BuildFromW | src/onb.rs:26-38 | the basis is orthonormal, with `w` the unit normal, `v = unit(w x a)` and `u = w x v` |
| Onbs.FrameFromW | src/onb.rs:26-38 | the unit `w`, the unit of `w x helper` and their cross product form an orthonormal frame, the cross product being non-zero |
| Onbs.CompletedFrame | src/onb.rs:34-36 | two orthogonal unit vectors and their cross product form an orthonormal basis |
| Onbs.DotLocal | src/onb.rs:19-21 | the dot of a local combination is the combination of the dots |
| Onbs.LocalCoordinates | src/onb.rs:19-24 | in an orthonormal basis `vec3_local(a)` has coordinates `a.x`, `a.y`, `a.z` along `u`, `v`, `w` |
| Onbs.LocalAxes | src/onb.rs:22-24 | the local unit axes map to `u`, `v`, `w` |
| Utils.DegreesToRadians | src/util.rs:4-6 | the radians times 180 are the degrees times `PI` |
| Utils.DegreesToRadiansLinear | src/util.rs:4-6 | the conversion is linear and maps 180 degrees to `PI` |
| Utils.RandomDoubleInRange | src/util.rs:17-20 | `gen_range(min..max)` with the uniform draw as a parameter lies in `[min, max)` |
| Utils.Reflect | src/util.rs:22-24 | the reflection's normal component is `v . n - 2 (v . n) (n . n)` |
| Utils.DotAlongNormal | src/util.rs:23 | removing `k n` from `v` removes `k (n . n)` from its normal component |
| Utils.ReflectUnit | src/util.rs:22-24 | about a unit normal, reflecting negates the normal component, and reflecting twice gives `v` back |
| Utils.ReflectBack | src/util.rs:23 | the second reflection undoes the first |
| Utils.RefractCosine | src/util.rs:27 | `min(-uv . n, 1)`: at most 1, and the dot itself when that is at most 1 |
| Utils.Refract | src/util.rs:26-31 | the refracted ray is the perpendicular part plus a multiple `k <= 0` of the normal with `k * k` equal to `abs(1 - perp.length_squared())` |
| Utils.PerpendicularPart | src/util.rs:27-28 | for a unit normal and an uncapped cosine the perpendicular part is orthogonal to the normal |
| Utils.RefractIsUnit | src/util.rs:26-31 | for a unit normal, an uncapped cosine and a perpendicular part of squared length at most 1, the refracted direction is a unit vector |
| Utils.RandomCosineDirection | src/util.rs:33-42 | for draws in `[0, 1)` the direction is a unit vector with `z = sqrt(1 - r2)` non-negative |
| Utils.CosineSquares | src/util.rs:38-39 | `(cos phi sqrt r2)^2 + (sin phi sqrt r2)^2 = r2` |
| Utils.DiskCandidate | src/util.rs:46-50 | each candidate component `-1 + 2 u` lies in `[-1, 1)` |
| Utils.RandomInUnitDisk | src/util.rs:44-55 | the rejection loop returns the first candidate with `length_squared < 1`, every earlier one was rejected, and the draws running out gives `None` |
| Utils.DiskIsNotFlat | src/util.rs:46-50 | the candidate has a third component too: draws `(0.5, 0.5, 0.9)` give `(0, 0, 0.8)`, accepted although it is off the disk's plane |
| Cameras.BackAxis | src/camera.rs:36 | `w = normalize(look_from - look_at)` is a unit vector |
| Cameras.New | src/camera.rs:21-51 | `u`, `v`, `w` are orthonormal with `u = normalize(view_up x w)` and `v = w x u`; origin, times and `lens_radius = aperture / 2` are stored; `horizontal` spans `2 half_width` along `u`, `vertical` spans `2 half_height` along `v`; the viewport's centre is `focus_dist` in front of the eye along `-w` |
| Cameras.Axes | src/camera.rs:36-38 | an orthonormal basis stays orthonormal with `u` and `v` swapped |
| Cameras.Extent | src/camera.rs:43-44 | `k a` has component `k` along the unit `a` and 0 along an orthogonal unit `b` |
| Cameras.ViewportCentre | src/camera.rs:42-44 | the lower-left corner plus half of each span is `look_from - focus_dist w` |
| Cameras.HalfOfDouble | src/camera.rs:43-44 | half of `2 k a` is `k a` |
| Cameras.GetRay | src/camera.rs:53-67 | the origin is the eye without a lens and the eye plus the lens offset with one; the time is in `[time0, time1)` for a draw in `[0, 1)`; the ray reaches the viewport point `lower_left + s horizontal + t vertical` at parameter 1 |
| Cameras.LensOffsetLength | src/camera.rs:57-58 | the offset's squared length is `lens_radius^2 (rd.x^2 + rd.y^2)` |
| Cameras.PlaneLength | src/camera.rs:58 | `|a u + b v|^2 = a^2 + b^2` for orthonormal `u`, `v` |
| Cameras.GetRayOnLens | src/camera.rs:53-60 | a disk sample puts the ray's origin within `lens_radius` of the eye, and exactly at the eye only without a lens or for a sample on the axis |
| Cameras.LensOffsetBound | src/camera.rs:57-58 | the offset is at most `lens_radius` long, and zero only without a lens or for a sample on the axis |
| Cameras.OriginOffset | src/camera.rs:54-60 | either way, the ray's origin is the eye plus the lens offset (zero without a lens) |
| Cameras.OffsetBound | src/camera.rs:57-58 | `r^2 (x^2 + y^2)` is at most `r^2` for a point inside the unit sphere, and 0 only when `r = 0` or `x = y = 0` |
| Colors.LinearToGamma | src/color.rs:6-8 | the square root: a number exactly for a non-negative input, the non-negative root that squares back; NaN otherwise |
| Colors.Quantize | src/color.rs:42-48 | `(256 * clamp(c)) as i32` lies in `0..=255`; NaN and non-positive values give 0, values in `[0, 0.999]` give `floor(256 c)`, larger ones 255 |
| Colors.Average | src/color.rs:19-34 | NaN becomes 0; otherwise the scaled value times the sample count is the accumulated value |
| Colors.Byte | src/color.rs:15-48 | the printed component lies in `0..=255` |
| Colors.ByteOfDark | src/color.rs:19-48 | a NaN or non-positive component prints as 0 |
| Colors.ByteMonotone | src/color.rs:15-48 | a brighter accumulated component never prints darker |
| Colors.SqrtMonotone | src/color.rs:6-8 | the square root is monotone on the non-negatives |
| Colors.QuantizeMonotone | src/color.rs:42-48 | quantisation is monotone on the non-negatives |
| Colors.ByteSaturates | src/color.rs:31-48 | a component averaging to at least `0.999^2` prints as 255 |
| Colors.SquareRootOf | src/color.rs:6-8 | the root of `s^2` is `s` for non-negative `s` |
| Colors.Decimal | src/color.rs:45 | `{}` on an integer gives at least one character, all of them decimal digits |
| Colors.DecimalRoundTrip | src/color.rs:45 | reading the decimal digits back gives the number |
| Colors.Line | src/color.rs:43-49 | the line `"{} {} {}\n"` ends in a newline |
| Colors.SplitField | src/color.rs:45 | a field without spaces followed by a space is split off whole |
| Colors.LineRoundTrip | src/color.rs:43-49 | the written line parses back to the three values |
| Colors.Component | src/color.rs:15-48 | the step-by-step updates of one component give the printed value `Byte` |
| Colors.WriteColor | src/color.rs:10-50 | the line written holds the three printed components and parses back to them |
| Textures.NewSolid | src/texture.rs:14-18 | a solid texture of colour `(r, g, b)` |
| Textures.NewChecker | src/texture.rs:34-36 | a checker texture over the two given textures |
| Textures.NewImage | src/texture.rs:81-83 | an image texture holding the bytes and the size |
| Textures.NewNoise | src/texture.rs:57-62 | a noise texture with the scale and a well-formed Perlin generator built from the draws, with the permutations the source builds (the identity) |
| Textures.Shade | src/texture.rs:66-70 | `0.5 (1 + sin(scale p.x + 5 turb))` lies in `[0, 1]` |
| Textures.NoiseColor | src/texture.rs:66-70 | a grey with all three components equal to the shade, inside the unit cube |
| Textures.Grey | src/texture.rs:67-69 | `(1, 1, 1) * 0.5 * a` is the grey `0.5 a` |
| Textures.NoiseValue | src/texture.rs:65-71 | the noise texture's value uses the turbulence of depth 7 at `p` |
| Textures.Pixel | src/texture.rs:91-99 | the saturating cast and the clamp give a pixel index below `n`: 0 below 1, the floor inside the range, `n - 1` from `n - 1` on |
| Textures.PixelIndex | src/texture.rs:91-101 | `3 i + 3 nx j` is a multiple of 3 whose three bytes lie within a `3 nx ny` image |
| Textures.RowMajorBound | src/texture.rs:101 | in-range `i`, `j` give a row-major index below `nx ny` |
| Textures.Intensity | src/texture.rs:102-104 | `b / 255` lies in `[0, 1]`, is 0 exactly for byte 0 and 1 exactly for byte 255 |
| Textures.ImageColor | src/texture.rs:87-107 | a colour exactly when the image is not empty and the three bytes at the index exist (the source panics otherwise), every component in `[0, 1]` |
| Textures.ImageReadsInBounds | src/texture.rs:87-107 | an image of exactly `3 nx ny` bytes always yields the colour of the three bytes at the index |
| Textures.ImageClampsToEdge | src/texture.rs:91-101 | coordinates at or past the corners read the first pixel (`u <= 0`, `v >= 1`) or the last pixel (`u >= 1`, `v <= 0`) |
| Textures.ImageValue | src/texture.rs:86-107 | the method with its clamps computes `ImageColor` |
| Textures.Value | src/texture.rs:4-6 | a solid texture gives its colour; noise gives a grey in the unit cube; an image colour lies in the unit cube |
| Textures.SolidIgnoresCoordinates | src/texture.rs:21-25 | a solid texture gives its colour whatever `u`, `v`, `p` |
| Textures.NoiseAtLatticePoint | src/texture.rs:65-71 | on a lattice point the turbulence is 0, so the shade is `0.5 (1 + sin(scale p.x))` |
| Textures.CheckerChoice | src/texture.rs:39-48 | a negative sine product picks the odd texture, anything else the even one |
| Textures.ValueDefined | src/texture.rs:39-107 | a texture whose images are all of full size always has a value |
| Textures.ValueInUnitCube | src/texture.rs:21-107 | a texture whose solid colours lie in the unit cube only yields colours in the unit cube |
| Textures.Evaluate | src/texture.rs:21-107 | evaluation by dispatch computes `Value` |
| Textures.AsTexture | src/texture.rs:4-6 | a full-size texture as a total colour function of `(u, v, p)` |
| Textures.DefinedEverywhere | src/texture.rs:39-107 | a full-size texture has a value at every `(u, v, p)` |
| Textures.SolidAsTexture | src/texture.rs:21-25 | a solid texture of this generation agrees with the other generation's solid colour |
| Perlins.AndLowBits | src/perlin.rs:44-54 | masking with `2^k - 1` keeps the remainder modulo `2^k` |
| Perlins.LowBitsStep | src/perlin.rs:44-54 | one bit of the mask: `2 ((x / 2) mod m) + x mod 2 = x mod 2m` |
| Perlins.Mask255 | src/perlin.rs:44-54 | `x & 255` is `x mod 256` |
| Perlins.XorBound | src/perlin.rs:52-54 | the exclusive or of two `k`-bit numbers is a `k`-bit number |
| Perlins.Wrap | src/perlin.rs:44-54 | `& 255` gives a table index below `POINT_COUNT` |
| Perlins.Hash | src/perlin.rs:52-54 | the exclusive or of three table entries indexes the gradient table |
| Perlins.GridIndex | src/perlin.rs:44-46 | the saturating cast `(4 x) as usize` masked with 255 is a table index |
| Perlins.Frac | src/perlin.rs:40-42 | `x - floor(x)` lies in `[0, 1)` |
| Perlins.FadeInRange | src/perlin.rs:92-94 | the smoothing `t^2 (3 - 2 t)` maps `[0, 1]` into `[0, 1]` |
| Perlins.CellCorners | src/perlin.rs:47-57 | the eight gradients of the cell |
| Perlins.Blend | src/perlin.rs:101-103 | the trilinear weight `i t + (1 - i)(1 - t)` |
| Perlins.InterpolationAtCorner | src/perlin.rs:91-109 | at the cell's corner `u = v = w = 0` the interpolation is 0 |
| Perlins.PlaneAtCorner | src/perlin.rs:97-107 | one plane of the sum is 0 at the corner |
| Perlins.RowAtCorner | src/perlin.rs:98-106 | one row of the sum is 0 at the corner |
| Perlins.TermAtCorner | src/perlin.rs:100-104 | every term is 0 at the corner: the weight vanishes off the corner and the offset vanishes at it |
| Perlins.NoiseAtLattice | src/perlin.rs:39-59 | the noise at a lattice point is 0 |
| Perlins.Weight | src/perlin.rs:64-68 | the octave weight `0.5^n` is positive |
| Perlins.AccumulatedStep | src/perlin.rs:66-70 | one loop step adds the weighted noise of the next octave |
| Perlins.TurbOf | src/perlin.rs:61-72 | the turbulence is the absolute value of the weighted octave sum: non-negative, 0 at depth 0, the sum or its negation |
| Perlins.OctaveAtLattice | src/perlin.rs:69 | doubling a lattice point gives a lattice point |
| Perlins.DoubleInteger | src/perlin.rs:69 | twice an integer is an integer |
| Perlins.TurbAtLattice | src/perlin.rs:61-72 | at a lattice point every octave's noise and hence the turbulence is 0 |
| Perlins.Identity | src/perlin.rs:21-25 | the table `[0, 1, .., n-1]` |
| Perlins.SwapLoop | src/perlin.rs:83-88 | the swap loop only reorders the table, and an empty range leaves it as it was |
| Perlins.Permute | src/perlin.rs:82-89 | `permute` on a copy over the empty range `n - 1..0` returns the table unchanged |
| Perlins.GeneratePerm | src/perlin.rs:74-81 | `perlin_generate_perm` returns the identity table |
| Perlins.Gradients | src/perlin.rs:13-16 | gradient `n` is the unit vector of draw `n` scaled into `[-1, 1)` |
| Perlins.FillIdentity | src/perlin.rs:17-25 | the three permutation tables are filled with the identity |
| Perlins.NewPerlin | src/perlin.rs:12-37 | a well-formed generator with the normalised gradients and identity permutation tables; the three `perlin_generate_perm` results are discarded |
| Perlins.Noise | src/perlin.rs:39-59 | the gathering and interpolation loops compute the noise `NoiseOf` |
| Perlins.GatherCorners | src/perlin.rs:47-57 | the triple loop fills the `2 x 2 x 2` array with the cell's gradients |
| Perlins.Turb | src/perlin.rs:61-72 | the octave loop computes `TurbOf` |
| Perlins.CornerPosition | src/perlin.rs:47-57 | index `4 i + 2 j + k` of the flattened array recovers `i`, `j`, `k` |
| Perlins.Corners | src/perlin.rs:47 | the flattened `2 x 2 x 2` array has eight entries |
| Perlins.PerlinInterpolation | src/perlin.rs:91-109 | the triple accumulation loop computes `Interpolation` |
| Scene.SolidColor | src/material.rs:34 | the solid colour `SolidColor::new(a)` gives `a` at every `(u, v, p)` |
| Scene.NewRecord | src/hittable.rs:17-27 | the empty record: zero point and normal, no material, `t = u = v = 0`, back face |
| Scene.SetFaceNormal | src/hittable.rs:28-35 | `front_face` is set exactly when the ray runs against the outward normal; the stored normal is the outward one on the front and its negation on the back, so it never faces along the ray; the other fields are kept |
| Scene.DefaultPdfValue | src/hittable.rs:41-43 | the trait's default `pdf_value` is 0 |
| Scene.DefaultRandom | src/hittable.rs:44-46 | the trait's default `random` is `(1, 0, 0)` |

## Left out

- Floating point: NaN, signed zeros and IEEE rounding are not modelled; every `f64` is a real number. NaN survives only on the colour path (`Colors.Sample`), where `write_color` tests for it.
- Zero-length vectors: wherever the source divides by a length or a direction component, the model requires it to be non-zero (`Vectors.UnitVector`, `Pdfs.NewCosine`, `ConstantMedia.Hit`, `Materials.Scatter` for metal and dielectric rays and for a Lambertian normal). The source would produce NaN there.
- Aabb.Slab: the case of an origin exactly on a slab plane with a zero direction component (where IEEE gives `0 * inf = NaN`) is taken as inside the slab, as `f64::max`/`f64::min` do when they ignore the NaN.
- Quads.NewQuad: requires non-parallel edges. For parallel edges the source's normal is NaN.
- Quads.BoxSides: requires the two corners to differ on every axis, so that every face is a proper quad. The ghost `quads` out-parameter lists the faces in the order the source adds them.
- Rects.RectHit: requires a non-degenerate rectangle (`x0 != x1`, `y0 != y1`); the source divides by both extents to get `u` and `v`.
- Media.MediumHit: requires a positive density; the source divides by it.
- ConstantMedia.Hit: a draw of exactly 0 makes `ln` return `-inf` in the source; the model's `ln` is a total real function, so this infinite hit distance is not represented.
- Bvh.SortRange: sorts by insertion, where the source calls the standard library's unstable `sort_unstable_by`. Both leave the slice sorted by the comparator's key and a permutation of what it was; the order among equal keys may differ.
- Bvh.Build: requires a non-empty slice. On an empty slice the source recurses for ever.
- Spheres.MovingSphereHit and Spheres.MovingSphereBoundingBox: require `time1 != time0`, by which the centre's position is divided.
- Boxes.Pad: states the widened width only for axes whose ends are in order; inverted axes are padded but their width is not stated.
- Materials.Scatter: requires a positive refraction index for a dielectric; `1 / ir` is taken.
- `powf` is uninterpreted beyond the bounds Schlick's approximation needs, which are stated as a precondition of `Materials.Reflectance`'s lemmas.
- Utils.RandomDoubleInRange: `gen_range` panics on an empty range, so the model requires `min < max`.
- Vectors.RandomInRange: the source accepts any `min` and `max` and computes `min + (max - min) * draw`. The model requires `min < max` because its `[min, max)` bound needs it; every call site passes `(-1.0, 1.0)`.
- Random numbers: the generator is not modelled. Each draw is a parameter with its range as a precondition.
- Vectors.RandomInUnitSphere and Utils.RandomInUnitDisk: the rejection loops run over a finite sequence of draws and return `None` when it runs out. The source loops until it accepts a point.
- HittableLists.HittableList.Random: requires a non-empty list; the source indexes an empty vector and panics.
- Colors.WriteColor: requires at least one sample per pixel; the source's scale is `1 / 0` otherwise. The `write!` error result (I/O) is not modelled; the method returns the line it would write.
- Perlins.NewPerlin and Textures.NewNoise: exclude a zero gradient draw, which `unit_vector` would turn into NaN.
- Perlin tables are immutable values once built; `Perlins.Perlin` keeps them as sequences.
- Cameras.New: requires `look_from != look_at` and a `vup` not parallel to the viewing direction. The source would produce NaN axes otherwise.
- Cameras.GetRay: the point of `random_in_unit_disk` and the time draw are parameters.
- Textures.NoiseColor: `NoiseTexture::value` passes `&p`, a reference to an nalgebra vector, to a `Perlin::turb` that takes a `Vec3` by value. The model passes the point's coordinates.
- Textures.ImageColor: an empty image and data too short for the pixel give `None`, where the source panics. The wrap-around of `nx - 1` in a release build without overflow checks, and an overflow of the `usize` index, are not modelled.
- Rotations.TurnBackScale and Rotations.TurnBackAlongRay: stated for the cyclic axis pairs `(x, y)`, `(y, z)`, `(z, x)` that `get_axis` produces, not for every pair of axes.
- Hittables.NewRotateY: requires a finite bounding box for the inner object. The source multiplies infinite ends by zero at every angle (the corner loop's `i as f64 * max + (1 - i) as f64 * min` with one factor 0), which makes NaN.
- Scene.SetFaceNormal: `set_face_normal` takes `&self` in the source, which could not assign the fields. The model updates the record, as the callers expect.
- Sharing and concurrency: the `Rc`/`Arc` reference counting and the `Send`/`Sync` bounds are not modelled. Shared objects are values.
- The logger (`src/logger.rs`), the progress bar (`src/progressbar.rs`), the scene set-up and render loop in `src/main.rs`, the crate root `src/lib.rs` and `src/test.rs` are not part of this model.
