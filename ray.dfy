/** Rays with an origin, a direction and a time stamp (src/ray.rs). The
    fields are private in the source and read through `origin()`,
    `direction()` and `time()`, which here are the datatype's destructors. */
module Rays {
  import opened Vectors

  datatype Ray = Ray(orig: Vec3, dir: Vec3, tm: real)
  {
    /** `at(t)`: the point reached after travelling `t` directions from the
        origin. */
    function At(t: real): (r: Vec3)
      ensures forall i :: 0 <= i < 3 ==> r.At(i) == orig.At(i) + t * dir.At(i)
    {
      Add(orig, Scale(t, dir))
    }
  }

  /** `Ray::new()`: the degenerate ray at the origin. */
  function New(): (r: Ray)
    ensures r.orig == Zero && r.dir == Zero && r.tm == 0.0
    ensures forall t :: r.At(t) == Zero
  {
    var r := Ray(Zero, Zero, 0.0);
    assert forall t :: r.At(t) == Zero by {
      forall t ensures r.At(t) == Zero { ExtensionalAt(r.At(t), Zero); }
    }
    r
  }

  /** `with_origin_and_direction`: the time stamp is 0. */
  function WithOriginAndDirection(origin: Vec3, direction: Vec3): (r: Ray)
    ensures r.orig == origin && r.dir == direction && r.tm == 0.0
  {
    Ray(origin, direction, 0.0)
  }

  /** `with_origin_direction_and_time`: all three values are kept. */
  function WithOriginDirectionAndTime(origin: Vec3, direction: Vec3, time: real): (r: Ray)
    ensures r.orig == origin && r.dir == direction && r.tm == time
    ensures r == WithOriginAndDirection(origin, direction) <==> time == 0.0
  {
    Ray(origin, direction, time)
  }

  /** The ray starts at its origin. */
  lemma AtZero(ray: Ray)
    ensures ray.At(0.0) == ray.orig
  {
    ExtensionalAt(ray.At(0.0), ray.orig);
  }

  /** Travelling `s` and then `t` more is travelling `s + t`. */
  lemma AtAdditive(ray: Ray, s: real, t: real)
    ensures ray.At(s + t) == Add(ray.At(s), Scale(t, ray.dir))
  {
    var a, b := ray.At(s + t), Add(ray.At(s), Scale(t, ray.dir));
    forall i | 0 <= i < 3 ensures a.At(i) == b.At(i) {
      var k := ray.dir.At(i);
      assert (s + t) * k == s * k + t * k;
    }
    ExtensionalAt(a, b);
  }
}
