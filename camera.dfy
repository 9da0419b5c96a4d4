/** The thin-lens camera (src/camera.rs): `new` places a viewport at the
    focus distance in front of `look_from`, spanned by `horizontal` and
    `vertical`; `get_ray` shoots from a point of the lens through a point of
    the viewport at a time drawn from the shutter interval. */
module Cameras {
  import opened Floats
  import opened Vectors
  import opened Rays
  import opened Onbs
  import opened Utils

  datatype Camera = Camera(
    origin: Vec3,
    lowerLeftCorner: Vec3,
    horizontal: Vec3,
    vertical: Vec3,
    u: Vec3,
    v: Vec3,
    time0: real,
    time1: real,
    lensRadius: real)

  /** Half the viewport height: `focus_dist * tan(theta / 2)` with `theta`
      the vertical field of view in radians. */
  function HalfHeight(m: Libm, verticalFov: real, focusDist: real): real
  {
    focusDist * m.tan(DegreesToRadians(verticalFov) / 2.0)
  }

  /** `half_width = aspect * half_height`. */
  function HalfWidth(m: Libm, verticalFov: real, aspect: real, focusDist: real): real
  {
    aspect * HalfHeight(m, verticalFov, focusDist)
  }

  /** The backward axis `w`: from `look_at` towards `look_from`, normalised. */
  function BackAxis(m: Libm, lookFrom: Vec3, lookAt: Vec3): (w: Vec3)
    requires m.Lawful() && lookFrom != lookAt
    ensures LengthSquared(w) == 1.0
  {
    UnitVectorIsUnit(m, Sub(lookFrom, lookAt));
    UnitVector(m, Sub(lookFrom, lookAt))
  }

  /** The lens axes are unit and orthogonal. */
  predicate LensFrame(c: Camera)
  {
    LengthSquared(c.u) == 1.0 && LengthSquared(c.v) == 1.0 && Dot(c.u, c.v) == 0.0
  }

  /** `Camera::new`. The view-up vector must not be parallel to the viewing
      direction (normalising their zero cross product gives NaN). The axes
      `u`, `v` and `w` form an orthonormal frame; `horizontal` and
      `vertical` run along `u` and `v` with lengths twice the half width
      `aspect * half_height` and twice the half height; the lens radius is
      half the aperture. */
  function New(m: Libm, lookFrom: Vec3, lookAt: Vec3, viewUp: Vec3, verticalFov: real, aspect: real,
               aperture: real, focusDist: real, time0: real, time1: real): (c: Camera)
    requires m.Lawful() && lookFrom != lookAt
    requires Cross(viewUp, BackAxis(m, lookFrom, lookAt)) != Zero
    ensures Orthonormal(Onb(c.u, c.v, BackAxis(m, lookFrom, lookAt)))
    ensures LensFrame(c)
    ensures c.u == UnitVector(m, Cross(viewUp, BackAxis(m, lookFrom, lookAt)))
    ensures c.v == Cross(BackAxis(m, lookFrom, lookAt), c.u)
    ensures c.origin == lookFrom && c.time0 == time0 && c.time1 == time1
    ensures 2.0 * c.lensRadius == aperture
    ensures Dot(c.vertical, c.v) == 2.0 * HalfHeight(m, verticalFov, focusDist) && Dot(c.vertical, c.u) == 0.0
    ensures Dot(c.horizontal, c.u) == 2.0 * HalfWidth(m, verticalFov, aspect, focusDist) && Dot(c.horizontal, c.v) == 0.0
    ensures Add(Add(c.lowerLeftCorner, Scale(0.5, c.horizontal)), Scale(0.5, c.vertical))
            == Sub(lookFrom, Scale(focusDist, BackAxis(m, lookFrom, lookAt)))
  {
    var halfHeight := HalfHeight(m, verticalFov, focusDist);
    var halfWidth := HalfWidth(m, verticalFov, aspect, focusDist);
    var w := BackAxis(m, lookFrom, lookAt);
    var cuw := Cross(viewUp, w);
    var u := UnitVector(m, cuw);
    CrossOrthogonal(viewUp, w);
    UnitVectorIsUnit(m, cuw);
    DotSymmetric(cuw, w);
    UnitVectorOrthogonal(m, cuw, w);
    DotSymmetric(u, w);
    CompletedFrame(w, u);
    var v := Cross(w, u);
    Axes(u, v, w);
    var c := Camera(
      lookFrom,
      Sub(Sub(Sub(lookFrom, Scale(halfWidth, u)), Scale(halfHeight, v)), Scale(focusDist, w)),
      Scale(2.0 * halfWidth, u),
      Scale(2.0 * halfHeight, v),
      u, v, time0, time1, aperture / 2.0);
    DotSymmetric(u, v);
    Extent(2.0 * halfHeight, v, u);
    Extent(2.0 * halfWidth, u, v);
    assert Dot(c.horizontal, u) == 2.0 * halfWidth;
    ViewportCentre(lookFrom, halfWidth, halfHeight, focusDist, u, v, w);
    c
  }

  /** The frame `(w x u, u, w)` of the completed basis, read as `(u, v, w)`. */
  lemma Axes(u: Vec3, v: Vec3, w: Vec3)
    requires Orthonormal(Onb(v, u, w))
    ensures Orthonormal(Onb(u, v, w))
  {
    DotSymmetric(u, v);
  }

  /** A multiple of a unit vector `a` has that multiple as its component
      along `a`, and none along a unit vector orthogonal to `a`. */
  lemma Extent(k: real, a: Vec3, b: Vec3)
    requires LengthSquared(a) == 1.0 && LengthSquared(b) == 1.0 && Dot(a, b) == 0.0
    ensures Dot(Scale(k, a), a) == k && Dot(Scale(k, a), b) == 0.0
  {
    DotScale(k, a, a);
    DotScale(k, a, b);
  }

  /** The centre of the viewport lies `focus_dist` along `-w` from the
      camera origin. */
  lemma ViewportCentre(lookFrom: Vec3, halfWidth: real, halfHeight: real, focusDist: real, u: Vec3, v: Vec3, w: Vec3)
    ensures Add(Add(Sub(Sub(Sub(lookFrom, Scale(halfWidth, u)), Scale(halfHeight, v)), Scale(focusDist, w)),
                    Scale(0.5, Scale(2.0 * halfWidth, u))),
                Scale(0.5, Scale(2.0 * halfHeight, v)))
            == Sub(lookFrom, Scale(focusDist, w))
  {
    HalfOfDouble(halfWidth, u);
    HalfOfDouble(halfHeight, v);
    var llc := Sub(Sub(Sub(lookFrom, Scale(halfWidth, u)), Scale(halfHeight, v)), Scale(focusDist, w));
    var a := Add(Add(llc, Scale(halfWidth, u)), Scale(halfHeight, v));
    ExtensionalAt(a, Sub(lookFrom, Scale(focusDist, w)));
  }

  lemma HalfOfDouble(k: real, a: Vec3)
    ensures Scale(0.5, Scale(2.0 * k, a)) == Scale(k, a)
  {
    ExtensionalAt(Scale(0.5, Scale(2.0 * k, a)), Scale(k, a));
  }

  /** The lens offset `u * rd.x + v * rd.y` for `rd = lens_radius * disk`. */
  function LensOffset(c: Camera, disk: Vec3): (r: Vec3)
  {
    var rd := Scale(c.lensRadius, disk);
    Add(Scale(rd.x, c.u), Scale(rd.y, c.v))
  }

  /** `get_ray(s, t)`, given the point `disk` drawn by
      `random_in_unit_disk` and the draw `time` of `gen::<f64>()`. A pinhole
      camera (`lens_radius == 0`) shoots from its origin. The ray is
      stamped with a time of the shutter interval, and it reaches the
      viewport point `lower_left_corner + s horizontal + t vertical` after
      one direction length. */
  function GetRay(c: Camera, s: real, t: real, disk: Vec3, time: real): (r: Ray)
    ensures c.lensRadius == 0.0 ==> r.orig == c.origin
    ensures c.lensRadius != 0.0 ==> r.orig == Add(c.origin, LensOffset(c, disk))
    ensures 0.0 <= time < 1.0 && c.time0 < c.time1 ==> c.time0 <= r.tm < c.time1
    ensures c.time0 == c.time1 ==> r.tm == c.time0
    ensures r.At(1.0) == Add(Add(c.lowerLeftCorner, Scale(s, c.horizontal)), Scale(t, c.vertical))
  {
    var origin := if c.lensRadius == 0.0 then c.origin else Add(c.origin, LensOffset(c, disk));
    var target := Add(Add(c.lowerLeftCorner, Scale(s, c.horizontal)), Scale(t, c.vertical));
    var r := WithOriginDirectionAndTime(origin, Sub(target, origin), c.time0 + time * (c.time1 - c.time0));
    ScaleByConstants(r.dir);
    ExtensionalAt(r.At(1.0), target);
    if 0.0 <= time < 1.0 && c.time0 < c.time1 then
      DrawInRange(c.time0, c.time1, time);
      r
    else
      r
  }

  /** For unit orthogonal lens axes the offset has squared length
      `lens_radius^2 (disk.x^2 + disk.y^2)`. */
  lemma LensOffsetLength(c: Camera, disk: Vec3) returns (q: real)
    requires LensFrame(c)
    ensures q == (c.lensRadius * c.lensRadius) * (disk.x * disk.x + disk.y * disk.y)
    ensures LengthSquared(LensOffset(c, disk)) == q
  {
    q := (c.lensRadius * c.lensRadius) * (disk.x * disk.x + disk.y * disk.y);
    var a, b := c.lensRadius * disk.x, c.lensRadius * disk.y;
    PlaneLength(a, b, c.u, c.v);
    assert a * a + b * b == (c.lensRadius * c.lensRadius) * (disk.x * disk.x + disk.y * disk.y);
  }

  lemma PlaneLength(a: real, b: real, u: Vec3, v: Vec3)
    requires LengthSquared(u) == 1.0 && LengthSquared(v) == 1.0 && Dot(u, v) == 0.0
    ensures LengthSquared(Add(Scale(a, u), Scale(b, v))) == a * a + b * b
  {
    var p := Add(Scale(a, u), Scale(b, v));
    assert Dot(p, p) == a * a * Dot(u, u) + 2.0 * a * b * Dot(u, v) + b * b * Dot(v, v);
  }

  /** The ray leaves from the lens disk: in a lens frame, with a point of
      the unit disk, the origin lies within `lens_radius` of the camera
      origin. It is the camera origin itself exactly when the lens radius is
      0 or the disk point lies on the lens axis. */
  lemma GetRayOnLens(c: Camera, s: real, t: real, disk: Vec3, time: real)
    requires LensFrame(c) && LengthSquared(disk) < 1.0
    ensures LengthSquared(Sub(GetRay(c, s, t, disk, time).orig, c.origin)) <= c.lensRadius * c.lensRadius
    ensures GetRay(c, s, t, disk, time).orig == c.origin
        <==> c.lensRadius == 0.0 || (disk.x == 0.0 && disk.y == 0.0)
  {
    var offset := LensOffset(c, disk);
    OriginOffset(c, s, t, disk, time);
    LensOffsetBound(c, disk);
    var o := GetRay(c, s, t, disk, time).orig;
    if o == c.origin {
      ExtensionalAt(Sub(o, c.origin), Zero);
    } else {
      assert offset != Zero by {
        if offset == Zero {
          ExtensionalAt(Add(c.origin, offset), c.origin);
        }
      }
      LengthSquaredPositive(offset);
    }
  }

  /** Inside the unit disk the lens offset is at most the lens radius long,
      and it vanishes exactly when the radius or the disk point's `(x, y)`
      does. */
  lemma LensOffsetBound(c: Camera, disk: Vec3)
    requires LensFrame(c) && LengthSquared(disk) < 1.0
    ensures LengthSquared(LensOffset(c, disk)) <= c.lensRadius * c.lensRadius
    ensures LengthSquared(LensOffset(c, disk)) == 0.0 <==> c.lensRadius == 0.0 || (disk.x == 0.0 && disk.y == 0.0)
  {
    var q := LensOffsetLength(c, disk);
    var q' := OffsetBound(c.lensRadius, disk);
    assert q == q';
  }

  /** The ray origin is the camera origin moved by the lens offset (which
      is zero for a pinhole camera). */
  lemma OriginOffset(c: Camera, s: real, t: real, disk: Vec3, time: real)
    ensures GetRay(c, s, t, disk, time).orig == Add(c.origin, LensOffset(c, disk))
    ensures Sub(GetRay(c, s, t, disk, time).orig, c.origin) == LensOffset(c, disk)
  {
    var offset := LensOffset(c, disk);
    if c.lensRadius == 0.0 {
      ScaleByConstants(c.u);
      ScaleByConstants(c.v);
      ExtensionalAt(offset, Zero);
      ExtensionalAt(Add(c.origin, Zero), c.origin);
    }
    ExtensionalAt(Sub(Add(c.origin, offset), c.origin), offset);
  }

  /** `r^2 (x^2 + y^2)` is at most `r^2` inside the unit disk, and zero
      exactly when `r` is zero or `(x, y)` is. */
  lemma OffsetBound(r: real, disk: Vec3) returns (q: real)
    requires LengthSquared(disk) < 1.0
    ensures q == (r * r) * (disk.x * disk.x + disk.y * disk.y)
    ensures q <= r * r
    ensures q == 0.0 <==> r == 0.0 || (disk.x == 0.0 && disk.y == 0.0)
  {
    q := (r * r) * (disk.x * disk.x + disk.y * disk.y);
    var rr := Square(r);
    var xx := Square(disk.x);
    var yy := Square(disk.y);
    var zz := Square(disk.z);
    var k := NonNegativeProduct(rr, 1.0 - (xx + yy));
    if r != 0.0 && (disk.x != 0.0 || disk.y != 0.0) {
      var j := PositiveProduct(rr, xx + yy);
    }
  }
}
