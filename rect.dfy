/** Axis-aligned rectangles of the nalgebra generation (src/rect.rs). A
    rectangle lies in the plane `k_axis = k`; `x0..x1` and `y0..y1` bound its
    two in-plane coordinates. */
module Rects {
  import opened Vectors
  import opened Rays
  import opened Aabb
  import opened Shapes
  import opened Floats

  datatype Plane = YZ | ZX | XY

  datatype Rect = Rect(plane: Plane, x0: real, y0: real, x1: real, y1: real, k: real, material: MaterialRef)

  /** `(k_axis, a_axis, b_axis)` of a plane: the normal axis and the two
      in-plane axes, three distinct indices covering 0, 1 and 2. */
  function Axes(plane: Plane): (r: (nat, nat, nat))
    ensures r.0 < 3 && r.1 < 3 && r.2 < 3
    ensures r.0 != r.1 && r.1 != r.2 && r.0 != r.2
    ensures plane == YZ <==> r.0 == 0
    ensures plane == ZX <==> r.0 == 1
    ensures plane == XY <==> r.0 == 2
    ensures r.1 == (r.0 + 1) % 3 && r.2 == (r.0 + 2) % 3
  {
    match plane
    case YZ => (0, 1, 2)
    case ZX => (1, 2, 0)
    case XY => (2, 0, 1)
  }

  /** A rectangle whose sides have non-zero length; `hit` divides by
      `x1 - x0` and `y1 - y0`. */
  predicate NonDegenerate(r: Rect)
  {
    r.x0 != r.x1 && r.y0 != r.y1
  }

  /** The distance at which `ray` crosses the rectangle's plane. */
  function PlaneDistance(r: Rect, ray: Ray): real
    requires ray.dir.At(Axes(r.plane).0) != 0.0
  {
    var ka := Axes(r.plane).0;
    (r.k - ray.orig.At(ka)) / ray.dir.At(ka)
  }

  /** `e_k` for a normal axis `k`. */
  function UnitAxis(k: nat): (r: Vec3)
    requires k < 3
    ensures r.At(k) == 1.0
    ensures forall i :: 0 <= i < 3 && i != k ==> r.At(i) == 0.0
  {
    Zero.With(k, 1.0)
  }

  /** The record `Rect::hit` builds once the crossing is accepted: the
      point `ray.at(t)` on the plane, the normal `+1` on the normal axis and
      the two side fractions as texture coordinates. */
  function RectRecord(r: Rect, ray: Ray): (h: Hit)
    requires NonDegenerate(r) && ray.dir.At(Axes(r.plane).0) != 0.0
    ensures h.t == PlaneDistance(r, ray) && h.p == ray.At(h.t)
    ensures h.p.At(Axes(r.plane).0) == r.k
    ensures h.normal == UnitAxis(Axes(r.plane).0) && h.material == r.material
    ensures h.u == Fraction(h.p.At(Axes(r.plane).1), r.x0, r.x1)
    ensures h.v == Fraction(h.p.At(Axes(r.plane).2), r.y0, r.y1)
  {
    var (ka, aa, ba) := Axes(r.plane);
    var t := PlaneDistance(r, ray);
    OnPlane(r, ray);
    Hit(t, ray.At(t), UnitAxis(ka), Fraction(ray.At(t).At(aa), r.x0, r.x1),
        Fraction(ray.At(t).At(ba), r.y0, r.y1), r.material)
  }

  /** `Rect::hit`. The distance to the plane is accepted on the closed range
      [`t_min`, `t_max`] and the crossing point (`x`, `y` being
      `origin + t * direction` on the two in-plane axes) on the closed
      rectangle. The normal is `+1` on the normal axis whichever side the ray
      comes from. A ray parallel to the plane is a miss (the source's
      quotient is an infinity, or NaN when the origin lies in the plane, a
      case not modelled). */
  function RectHit(r: Rect, ray: Ray, tMin: real, tMax: real): (h: Option<Hit>)
    requires NonDegenerate(r)
    ensures h.Some? ==> ray.dir.At(Axes(r.plane).0) != 0.0 && h.value == RectRecord(r, ray)
    ensures h.Some? ==> tMin <= h.value.t <= tMax && InRect(r, h.value.p)
    ensures h.None? <==> ray.dir.At(Axes(r.plane).0) == 0.0 || !(tMin <= PlaneDistance(r, ray) <= tMax)
                         || !InRect(r, RectRecord(r, ray).p)
  {
    var (ka, aa, ba) := Axes(r.plane);
    if ray.dir.At(ka) == 0.0 then None
    else
      var t := PlaneDistance(r, ray);
      if t < tMin || t > tMax then None
      else
        var h := RectRecord(r, ray);
        var x, y := h.p.At(aa), h.p.At(ba);
        if x < r.x0 || x > r.x1 || y < r.y0 || y > r.y1 then None
        else Some(h)
  }

  /** `p` is on the plane and within both in-plane ranges. */
  predicate InRect(r: Rect, p: Vec3)
  {
    var (ka, aa, ba) := Axes(r.plane);
    p.At(ka) == r.k && r.x0 <= p.At(aa) <= r.x1 && r.y0 <= p.At(ba) <= r.y1
  }

  /** The ray point at the plane distance lies on the plane. */
  lemma OnPlane(r: Rect, ray: Ray)
    requires ray.dir.At(Axes(r.plane).0) != 0.0
    ensures ray.At(PlaneDistance(r, ray)).At(Axes(r.plane).0) == r.k
  {
    var ka := Axes(r.plane).0;
    var d, o := ray.dir.At(ka), ray.orig.At(ka);
    assert (r.k - o) / d * d == r.k - o;
  }

  /** Where `x` lies between `lo` and `hi`, as a fraction of `hi - lo`: the
      texture coordinate along one side. Inside a side with `lo < hi` it lies
      in [0, 1]. */
  function Fraction(x: real, lo: real, hi: real): (r: real)
    requires lo != hi
    ensures lo < hi && lo <= x <= hi ==> 0.0 <= r <= 1.0
    ensures r * (hi - lo) == x - lo
  {
    var d, a := hi - lo, x - lo;
    FractionBound(a, d);
    a / d
  }

  lemma FractionBound(a: real, d: real)
    requires d != 0.0
    ensures d > 0.0 && 0.0 <= a <= d ==> 0.0 <= a / d <= 1.0
  {
    if d > 0.0 && 0.0 <= a <= d {
      var q := a / d;
      assert q * d == a;
      if q < 0.0 {
        var k := PositiveProduct(-q, d);
      }
      if q > 1.0 {
        var k := PositiveProduct(q - 1.0, d);
      }
    }
  }

  /** With `x0 < x1` and `y0 < y1` the texture coordinates lie in [0, 1]. */
  lemma TextureCoordinatesInUnitRange(r: Rect, ray: Ray, tMin: real, tMax: real)
    requires r.x0 < r.x1 && r.y0 < r.y1 && RectHit(r, ray, tMin, tMax).Some?
    ensures 0.0 <= RectHit(r, ray, tMin, tMax).value.u <= 1.0
    ensures 0.0 <= RectHit(r, ray, tMin, tMax).value.v <= 1.0
  {
    var h := RectHit(r, ray, tMin, tMax).value;
    assert InRect(r, h.p);
  }

  /** `Rect::bounding_box`: the corners `(x0, y0, k - 0.0001)` and
      `(x1, y1, k + 0.0001)` in x, y, z order for every plane, whatever the
      times. */
  function RectBoundingBox(r: Rect, t0: real, t1: real): (b: Option<Box>)
    ensures b.Some? && b.value.min.z < r.k < b.value.max.z
    ensures b.value.min.x == r.x0 && b.value.max.x == r.x1
    ensures b.value.min.y == r.y0 && b.value.max.y == r.y1
    ensures b.value.max.z - b.value.min.z == 0.0002
  {
    Some(Box(Vec3(r.x0, r.y0, r.k - 0.0001), Vec3(r.x1, r.y1, r.k + 0.0001)))
  }

  /** For an `XY` rectangle the box holds every hit point. */
  lemma XYHitInBox(r: Rect, ray: Ray, tMin: real, tMax: real, t0: real, t1: real)
    requires r.plane == XY && NonDegenerate(r) && RectHit(r, ray, tMin, tMax).Some?
    ensures Inside(RectBoundingBox(r, t0, t1).value, RectHit(r, ray, tMin, tMax).value.p)
  {
    var p := RectHit(r, ray, tMin, tMax).value.p;
    var b := RectBoundingBox(r, t0, t1).value;
    assert InRect(r, p);
    assert forall i :: 0 <= i < 3 ==> b.min.At(i) <= p.At(i) <= b.max.At(i);
  }

  /** For the other planes the box ignores the plane: a `YZ` rectangle at
      `x = 5` spanning `[0, 1]` in y and z is hit at `(5, 0.5, 0.5)` by the
      ray from `(0, 0.5, 0.5)` along x, and that point is outside its box. */
  lemma YZBoxMissesHit()
    ensures var r := Rect(YZ, 0.0, 0.0, 1.0, 1.0, 5.0, 0);
      var ray := Ray(Vec3(0.0, 0.5, 0.5), Vec3(1.0, 0.0, 0.0), 0.0);
      RectHit(r, ray, 0.0, 10.0).Some? &&
      RectHit(r, ray, 0.0, 10.0).value.p == Vec3(5.0, 0.5, 0.5) &&
      !Inside(RectBoundingBox(r, 0.0, 1.0).value, Vec3(5.0, 0.5, 0.5))
  {
    var r := Rect(YZ, 0.0, 0.0, 1.0, 1.0, 5.0, 0);
    var ray := Ray(Vec3(0.0, 0.5, 0.5), Vec3(1.0, 0.0, 0.0), 0.0);
    assert PlaneDistance(r, ray) == 5.0;
    assert ray.At(5.0) == Vec3(5.0, 0.5, 0.5);
    assert InRect(r, Vec3(5.0, 0.5, 0.5));
    assert RectBoundingBox(r, 0.0, 1.0).value.max.At(0) == 1.0;
  }

  function RectShape(r: Rect): (sh: Shape)
    requires NonDegenerate(r)
    ensures forall ray, tMin, tMax :: sh.hit(ray, tMin, tMax).Some? ==>
              tMin <= sh.hit(ray, tMin, tMax).value.t <= tMax && InRect(r, sh.hit(ray, tMin, tMax).value.p)
    ensures forall t0, t1 :: sh.boundingBox(t0, t1).Some? && sh.boundingBox(t0, t1).value.min.z < r.k < sh.boundingBox(t0, t1).value.max.z
  {
    Shape((ray, tMin, tMax) => RectHit(r, ray, tMin, tMax), (t0, t1) => RectBoundingBox(r, t0, t1))
  }
}
