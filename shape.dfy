/** The `Hittable` interface of the nalgebra generation, used by src/bvh.rs,
    src/sphere.rs, src/rect.rs, src/rotate.rs, src/traslate.rs,
    src/medium.rs and src/cube.rs: `hit(&Ray, t_min, t_max)` returns an
    optional record and `bounding_box(t0, t1)` an optional box. A trait
    object is the pair of those two functions. */
module Shapes {
  import opened Vectors
  import opened Rays
  import opened Aabb

  /** The record's `&dyn Material` is kept as an identifier of the material
      it points to. */
  type MaterialRef = nat

  /** `HitRecord { t, p, normal, u, v, material }`. */
  datatype Hit = Hit(t: real, p: Vec3, normal: Vec3, u: real, v: real, material: MaterialRef)

  /** A hittable object. */
  datatype Shape = Shape(hit: (Ray, real, real) -> Option<Hit>, boundingBox: (real, real) -> Option<Box>)
}
