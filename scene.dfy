/** The `Hittable` interface of the `Interval` generation (src/hittable.rs):
    `hit(Ray, Interval, &mut HitRecord) -> bool` and `bounding_box()`,
    with the trait defaults for `pdf_value` and `random`. The record the
    caller lends is passed in and the record as the callee leaves it is
    returned next to the flag. */
module Scene {
  import opened Vectors
  import opened Rays
  import opened Intervals
  import opened Boxes

  /** An `Arc<dyn Texture>`: colour as a function of `(u, v, p)`. */
  type Texture = (real, real, Vec3) -> Vec3

  /** `SolidColor::new(c)`: the same colour everywhere. */
  function SolidColor(c: Vec3): (t: Texture)
    ensures forall u, v, p :: t(u, v, p) == c
  {
    (u: real, v: real, p: Vec3) => c
  }

  /** The materials of src/material.rs, by their stored fields. */
  datatype Material =
    | Lambertian(albedo: Texture)
    | Metal(colour: Vec3, fuzz: real)
    | Dielectric(ir: real)
    | DiffuseLight(emit: Texture)
    | Isotropic(albedo: Texture)

  /** `HitRecord { p, normal, mat, t, u, v, front_face }`. */
  datatype HitRecord = HitRecord(p: Vec3, normal: Vec3, mat: Option<Material>, t: real, u: real, v: real, frontFace: bool)

  /** A `dyn Hittable`: its `hit`, its `bounding_box()` and its
      `pdf_value` and `random`. */
  datatype Hittable = Hittable(
    hit: (Ray, Interval, HitRecord) -> (bool, HitRecord),
    bbox: Bounds,
    pdfValue: (Vec3, Vec3) -> real,
    random: Vec3 -> Vec3)

  /** `HitRecord::new()`. */
  function NewRecord(): (r: HitRecord)
    ensures r.p == Zero && r.normal == Zero && r.mat.None?
    ensures r.t == 0.0 && r.u == 0.0 && r.v == 0.0 && !r.frontFace
  {
    HitRecord(Zero, Zero, None, 0.0, 0.0, 0.0, false)
  }

  /** `set_face_normal(r, outward_normal)`: the record faces the ray when
      the ray runs against the outward normal, and the stored normal then
      always points against the ray. Nothing else in the record changes. */
  function SetFaceNormal(rec: HitRecord, r: Ray, outwardNormal: Vec3): (rec': HitRecord)
    ensures rec'.frontFace <==> Dot(r.dir, outwardNormal) < 0.0
    ensures rec'.normal == (if rec'.frontFace then outwardNormal else Neg(outwardNormal))
    ensures Dot(r.dir, rec'.normal) <= 0.0
    ensures rec'.p == rec.p && rec'.mat == rec.mat && rec'.t == rec.t && rec'.u == rec.u && rec'.v == rec.v
  {
    var frontFace := Dot(r.dir, outwardNormal) < 0.0;
    var normal := if frontFace then outwardNormal else Neg(outwardNormal);
    assert Dot(r.dir, Neg(outwardNormal)) == -Dot(r.dir, outwardNormal);
    rec.(frontFace := frontFace, normal := normal)
  }

  /** The trait default `pdf_value`: zero for every origin and direction. */
  function DefaultPdfValue(o: Vec3, v: Vec3): (r: real)
    ensures r == 0.0
  {
    0.0
  }

  /** The trait default `random`: the x axis for every origin. */
  function DefaultRandom(o: Vec3): (r: Vec3)
    ensures r == Vec3(1.0, 0.0, 0.0)
  {
    Vec3(1.0, 0.0, 0.0)
  }

  /** An object that keeps to the interval it is asked about: whenever it
      reports a hit, the recorded `t` lies in that interval. */
  ghost predicate Respects(h: Hittable)
  {
    forall r, i, rec :: h.hit(r, i, rec).0 ==> i.Contains(h.hit(r, i, rec).1.t)
  }

  /** An object whose `hit` leaves the lent record alone when it misses. */
  ghost predicate KeepsOnMiss(h: Hittable)
  {
    forall r, i, rec :: !h.hit(r, i, rec).0 ==> h.hit(r, i, rec).1 == rec
  }
}
