/** Moving an object by a fixed offset (src/traslate.rs, nalgebra
    generation). */
module Traslations {
  import opened Vectors
  import opened Rays
  import opened Aabb
  import opened Shapes

  /** The ray seen from the object's own frame: origin moved back by the
      offset, direction and time kept. */
  function MovedRay(ray: Ray, offset: Vec3): (r: Ray)
    ensures r.dir == ray.dir && r.tm == ray.tm
    ensures forall t :: Add(r.At(t), offset) == ray.At(t)
  {
    var r := Ray(Sub(ray.orig, offset), ray.dir, ray.tm);
    assert forall t :: Add(r.At(t), offset) == ray.At(t) by {
      forall t ensures Add(r.At(t), offset) == ray.At(t) {
        ExtensionalAt(Add(r.At(t), offset), ray.At(t));
      }
    }
    r
  }

  /** `Traslate::hit`: the inner object is hit by the moved ray and the hit
      point is moved forward by the offset; everything else in the record
      is kept. */
  function TraslateHit(inner: Shape, offset: Vec3, ray: Ray, tMin: real, tMax: real): (r: Option<Hit>)
    ensures r.None? <==> inner.hit(MovedRay(ray, offset), tMin, tMax).None?
    ensures r.Some? ==> var h := inner.hit(MovedRay(ray, offset), tMin, tMax).value;
      r.value.t == h.t && r.value.normal == h.normal && r.value.u == h.u && r.value.v == h.v
      && r.value.material == h.material && Sub(r.value.p, offset) == h.p
  {
    match inner.hit(MovedRay(ray, offset), tMin, tMax)
    case None => None
    case Some(h) =>
      var p := Add(h.p, offset);
      assert Sub(p, offset) == h.p by { ExtensionalAt(Sub(p, offset), h.p); }
      Some(h.(p := p))
  }

  /** A hit the inner object places on the moved ray at its distance `t`
      is, after translation, on the original ray at the same distance. */
  lemma HitOnOriginalRay(inner: Shape, offset: Vec3, ray: Ray, tMin: real, tMax: real)
    requires var h := inner.hit(MovedRay(ray, offset), tMin, tMax);
      h.Some? ==> h.value.p == MovedRay(ray, offset).At(h.value.t)
    ensures var r := TraslateHit(inner, offset, ray, tMin, tMax);
      r.Some? ==> r.value.p == ray.At(r.value.t)
  {
    var r := TraslateHit(inner, offset, ray, tMin, tMax);
    if r.Some? {
      var h := inner.hit(MovedRay(ray, offset), tMin, tMax).value;
      assert r.value.p == Add(h.p, offset) by { ExtensionalAt(r.value.p, Add(h.p, offset)); }
    }
  }

  /** A zero offset changes nothing. */
  lemma ZeroOffset(inner: Shape, ray: Ray, tMin: real, tMax: real, t0: real, t1: real)
    ensures TraslateHit(inner, Zero, ray, tMin, tMax) == inner.hit(ray, tMin, tMax)
    ensures TraslateBoundingBox(inner, Zero, t0, t1) == inner.boundingBox(t0, t1)
  {
    assert MovedRay(ray, Zero) == ray by { ExtensionalAt(MovedRay(ray, Zero).orig, ray.orig); }
    var r := TraslateHit(inner, Zero, ray, tMin, tMax);
    if r.Some? {
      var h := inner.hit(ray, tMin, tMax).value;
      assert r.value.p == h.p by { ExtensionalAt(r.value.p, h.p); }
    }
    var b := TraslateBoundingBox(inner, Zero, t0, t1);
    if b.Some? {
      var c := inner.boundingBox(t0, t1).value;
      assert b.value.min == c.min by { ExtensionalAt(b.value.min, c.min); }
      assert b.value.max == c.max by { ExtensionalAt(b.value.max, c.max); }
    }
  }

  /** `Traslate::bounding_box`: both corners of the inner box moved by the
      offset; no box when the inner object has none. */
  function TraslateBoundingBox(inner: Shape, offset: Vec3, t0: real, t1: real): (r: Option<Box>)
    ensures r.None? <==> inner.boundingBox(t0, t1).None?
    ensures r.Some? ==> var b := inner.boundingBox(t0, t1).value;
      Sub(r.value.min, offset) == b.min && Sub(r.value.max, offset) == b.max
  {
    match inner.boundingBox(t0, t1)
    case None => None
    case Some(b) =>
      var r := Box(Add(b.min, offset), Add(b.max, offset));
      assert Sub(r.min, offset) == b.min by { ExtensionalAt(Sub(r.min, offset), b.min); }
      assert Sub(r.max, offset) == b.max by { ExtensionalAt(Sub(r.max, offset), b.max); }
      Some(r)
  }

  /** Translation keeps a hit inside the box: when the inner object's hits
      lie in its box, the translated hits lie in the translated box. */
  lemma HitStaysInBox(inner: Shape, offset: Vec3, ray: Ray, tMin: real, tMax: real, t0: real, t1: real)
    requires var h, b := inner.hit(MovedRay(ray, offset), tMin, tMax), inner.boundingBox(t0, t1);
      h.Some? ==> b.Some? && Inside(b.value, h.value.p)
    ensures var h, b := TraslateHit(inner, offset, ray, tMin, tMax), TraslateBoundingBox(inner, offset, t0, t1);
      h.Some? ==> b.Some? && Inside(b.value, h.value.p)
  {
    var h, b := TraslateHit(inner, offset, ray, tMin, tMax), TraslateBoundingBox(inner, offset, t0, t1);
    if h.Some? {
      var p := h.value.p;
      var q := Sub(p, offset);
      assert forall i :: 0 <= i < 3 ==> p.At(i) == q.At(i) + offset.At(i);
      assert forall i :: 0 <= i < 3 ==> b.value.min.At(i) == Sub(b.value.min, offset).At(i) + offset.At(i);
      assert forall i :: 0 <= i < 3 ==> b.value.max.At(i) == Sub(b.value.max, offset).At(i) + offset.At(i);
    }
  }

  function TraslateShape(inner: Shape, offset: Vec3): (sh: Shape)
    ensures forall ray, tMin, tMax :: sh.hit(ray, tMin, tMax).None? <==> inner.hit(MovedRay(ray, offset), tMin, tMax).None?
    ensures forall ray, tMin, tMax :: sh.hit(ray, tMin, tMax).Some? ==>
              sh.hit(ray, tMin, tMax).value.t == inner.hit(MovedRay(ray, offset), tMin, tMax).value.t
    ensures forall t0, t1 :: sh.boundingBox(t0, t1).None? <==> inner.boundingBox(t0, t1).None?
  {
    Shape((ray, tMin, tMax) => TraslateHit(inner, offset, ray, tMin, tMax),
          (t0, t1) => TraslateBoundingBox(inner, offset, t0, t1))
  }
}
