/** Axis-aligned bounding boxes of the nalgebra generation (src/aabb.rs):
    the union of two boxes and the slab test a ray runs against a box. */
module Aabb {
  import opened ExtReals
  import opened Floats
  import opened Vectors
  import opened Rays

  /** `AABB { min, max }`; `AABB::new` is the constructor. */
  datatype Box = Box(min: Vec3, max: Vec3)

  /** `p` lies in the closed box. */
  predicate Inside(b: Box, p: Vec3)
  {
    forall i :: 0 <= i < 3 ==> b.min.At(i) <= p.At(i) <= b.max.At(i)
  }

  /** `p` lies strictly inside the box. */
  predicate StrictlyInside(b: Box, p: Vec3)
  {
    forall i :: 0 <= i < 3 ==> b.min.At(i) < p.At(i) < b.max.At(i)
  }

  /** Every face of `a` lies within the faces of `b`. */
  predicate Within(a: Box, b: Box)
  {
    forall i :: 0 <= i < 3 ==> b.min.At(i) <= a.min.At(i) && a.max.At(i) <= b.max.At(i)
  }

  /** `surrounding_box`: the componentwise minimum of the minima and maximum
      of the maxima. */
  function SurroundingBox(box0: Box, box1: Box): (r: Box)
    ensures Within(box0, r) && Within(box1, r)
    ensures forall c :: Within(box0, c) && Within(box1, c) ==> Within(r, c)
  {
    var r := Box(Vec3(Floats.Min(box0.min.x, box1.min.x), Floats.Min(box0.min.y, box1.min.y), Floats.Min(box0.min.z, box1.min.z)),
                 Vec3(Floats.Max(box0.max.x, box1.max.x), Floats.Max(box0.max.y, box1.max.y), Floats.Max(box0.max.z, box1.max.z)));
    assert forall i :: 0 <= i < 3 ==>
      r.min.At(i) == Floats.Min(box0.min.At(i), box1.min.At(i)) && r.max.At(i) == Floats.Max(box0.max.At(i), box1.max.At(i));
    r
  }

  /** The union holds every point of either box. */
  lemma SurroundingBoxContains(box0: Box, box1: Box, p: Vec3)
    requires Inside(box0, p) || Inside(box1, p)
    ensures Inside(SurroundingBox(box0, box1), p)
  {
    var r := SurroundingBox(box0, box1);
    forall i | 0 <= i < 3 ensures r.min.At(i) <= p.At(i) <= r.max.At(i) {
      assert Within(box0, r) && Within(box1, r);
    }
  }

  /** The union does not depend on the order of its arguments, and a box
      united with itself is unchanged. */
  lemma {:induction false} SurroundingBoxAlgebra(box0: Box, box1: Box)
    ensures SurroundingBox(box0, box1) == SurroundingBox(box1, box0)
    ensures SurroundingBox(box0, box0) == box0
  {
    var r, s := SurroundingBox(box0, box1), SurroundingBox(box1, box0);
    assert Within(r, s) && Within(s, r);
    ExtensionalAt(r.min, s.min);
    ExtensionalAt(r.max, s.max);
    var q := SurroundingBox(box0, box0);
    assert Within(q, box0) && Within(box0, q);
    ExtensionalAt(q.min, box0.min);
    ExtensionalAt(q.max, box0.max);
  }

  /** The entry and exit distances of `ray` through the slab of axis `a`
      (src/aabb.rs:33-36), as extended reals. With a zero direction
      component the IEEE quotient `1/0` is an infinity: the slab then
      admits every distance when the origin lies between the two planes
      (a NaN product is ignored by `max`/`min`) and none when it lies
      outside. The sign of the zero does not change this. */
  function Slab(b: Box, ray: Ray, a: nat): (r: (ExtReal, ExtReal))
    requires a < 3
  {
    var d, o := ray.dir.At(a), ray.orig.At(a);
    if d != 0.0 then
      var invD := 1.0 / d;
      var t0 := (b.min.At(a) - o) * invD;
      var t1 := (b.max.At(a) - o) * invD;
      if invD < 0.0 then (Fin(t1), Fin(t0)) else (Fin(t0), Fin(t1))
    else
      (if o < b.min.At(a) then PosInf else NegInf, if o > b.max.At(a) then NegInf else PosInf)
  }

  /** The loop of `AABB::hit` from axis `a` on, with the current window
      (`t_min`, `t_max`): the final window, or `None` at the first axis
      that empties it. */
  function Window(b: Box, ray: Ray, a: nat, tMin: ExtReal, tMax: ExtReal): (r: Option<(ExtReal, ExtReal)>)
    requires a <= 3
    decreases 3 - a
  {
    if a == 3 then Some((tMin, tMax))
    else
      var (lo, hi) := Slab(b, ray, a);
      var tMin', tMax' := ExtReals.Max(tMin, lo), ExtReals.Min(tMax, hi);
      if Le(tMax', tMin') then None else Window(b, ray, a + 1, tMin', tMax')
  }

  /** What `AABB::hit(ray, t_min, t_max)` returns. */
  predicate Hits(b: Box, ray: Ray, tMin: real, tMax: real)
  {
    Window(b, ray, 0, Fin(tMin), Fin(tMax)).Some?
  }

  /** `AABB::hit`: the three-axis loop with its early exit. */
  method Hit(b: Box, ray: Ray, tMin: real, tMax: real) returns (r: bool)
    ensures r == Hits(b, ray, tMin, tMax)
  {
    var lo, hi := Fin(tMin), Fin(tMax);
    for a := 0 to 3
      invariant Window(b, ray, 0, Fin(tMin), Fin(tMax)) == Window(b, ray, a, lo, hi)
    {
      var (t0, t1) := Slab(b, ray, a);
      lo := ExtReals.Max(lo, t0);
      hi := ExtReals.Min(hi, t1);
      if Le(hi, lo) {
        return false;
      }
    }
    return true;
  }

  /** A non-empty final window lies inside the input window and is itself
      non-empty. */
  lemma {:induction false} WindowBounds(b: Box, ray: Ray, a: nat, tMin: ExtReal, tMax: ExtReal)
    requires a <= 3
    requires a == 3 ==> Lt(tMin, tMax)
    requires Window(b, ray, a, tMin, tMax).Some?
    ensures var (lo, hi) := Window(b, ray, a, tMin, tMax).value;
      Lt(lo, hi) && Le(tMin, lo) && Le(hi, tMax)
    decreases 3 - a
  {
    if a < 3 {
      var (t0, t1) := Slab(b, ray, a);
      var lo, hi := ExtReals.Max(tMin, t0), ExtReals.Min(tMax, t1);
      LeTotal(hi, lo);
      WindowBounds(b, ray, a + 1, lo, hi);
      var (lo', hi') := Window(b, ray, a + 1, lo, hi).value;
      LeTransitive(tMin, lo, lo');
      LeTransitive(hi', hi, tMax);
    }
  }

  /** On success the window the loop ends with is non-empty and within
      [`t_min`, `t_max`]. */
  lemma HitWindow(b: Box, ray: Ray, tMin: real, tMax: real)
    requires Hits(b, ray, tMin, tMax)
    ensures var (lo, hi) := Window(b, ray, 0, Fin(tMin), Fin(tMax)).value;
      Lt(lo, hi) && Le(Fin(tMin), lo) && Le(hi, Fin(tMax))
  {
    WindowBounds(b, ray, 0, Fin(tMin), Fin(tMax));
  }

  /** An empty input range is never hit. */
  lemma EmptyRangeMisses(b: Box, ray: Ray, tMin: real, tMax: real)
    requires tMax <= tMin
    ensures !Hits(b, ray, tMin, tMax)
  {
    var (t0, t1) := Slab(b, ray, 0);
    var lo, hi := ExtReals.Max(Fin(tMin), t0), ExtReals.Min(Fin(tMax), t1);
    LeTransitive(hi, Fin(tMax), Fin(tMin));
    LeTransitive(hi, Fin(tMin), lo);
  }

  /** When the first axis empties the window the answer is `false`, and the
      other two axes are not examined: a box that agrees on axis 0 gives the
      same answer whatever its other faces. */
  lemma EarlyExit(b: Box, c: Box, ray: Ray, tMin: real, tMax: real)
    requires b.min.x == c.min.x && b.max.x == c.max.x
    requires var (t0, t1) := Slab(b, ray, 0);
      Le(ExtReals.Min(Fin(tMax), t1), ExtReals.Max(Fin(tMin), t0))
    ensures !Hits(b, ray, tMin, tMax) && !Hits(c, ray, tMin, tMax)
  {
    assert b.min.At(0) == c.min.At(0) && b.max.At(0) == c.max.At(0);
    var d, o := ray.dir.At(0), ray.orig.At(0);
    if d != 0.0 {
      var invD := 1.0 / d;
      assert (b.min.At(0) - o) * invD == (c.min.At(0) - o) * invD;
      assert (b.max.At(0) - o) * invD == (c.max.At(0) - o) * invD;
      assert Slab(b, ray, 0).0 == Slab(c, ray, 0).0;
      assert Slab(b, ray, 0).1 == Slab(c, ray, 0).1;
    } else {
      assert Slab(b, ray, 0).0 == Slab(c, ray, 0).0;
      assert Slab(b, ray, 0).1 == Slab(c, ray, 0).1;
    }
    assert Slab(b, ray, 0) == Slab(c, ray, 0);
  }

  /** Swapping on a negative inverse makes each slab's entry no later than
      its exit when the box is well formed on that axis. */
  lemma SlabOrdered(b: Box, ray: Ray, a: nat)
    requires a < 3 && b.min.At(a) <= b.max.At(a)
    ensures Le(Slab(b, ray, a).0, Slab(b, ray, a).1)
  {
    var d, o := ray.dir.At(a), ray.orig.At(a);
    if d != 0.0 {
      var invD := 1.0 / d;
      var x, y := b.min.At(a) - o, b.max.At(a) - o;
      if invD < 0.0 {
        var k := NonNegativeProduct(y - x, -invD);
        assert k == x * invD - y * invD;
      } else {
        var k := NonNegativeProduct(y - x, invD);
        assert k == y * invD - x * invD;
      }
    }
  }

  /** Dividing both sides of `x < y * d` by a positive `d`. */
  lemma DivideLess(x: real, y: real, d: real)
    requires d > 0.0 && x < y * d
    ensures x * (1.0 / d) < y
  {
    var k := PositiveProduct(y * d - x, 1.0 / d);
    assert k == y - x * (1.0 / d);
  }

  /** Dividing both sides of `y * d < x` by a positive `d`. */
  lemma DivideGreater(x: real, y: real, d: real)
    requires d > 0.0 && y * d < x
    ensures y < x * (1.0 / d)
  {
    var k := PositiveProduct(x - y * d, 1.0 / d);
    assert k == x * (1.0 / d) - y;
  }

  /** If the ray is strictly inside the slab of axis `a` at distance `t`,
      that slab admits `t`. */
  lemma SlabAdmits(b: Box, ray: Ray, a: nat, t: real)
    requires a < 3
    requires b.min.At(a) < ray.orig.At(a) + t * ray.dir.At(a) < b.max.At(a)
    ensures Lt(Slab(b, ray, a).0, Fin(t)) && Lt(Fin(t), Slab(b, ray, a).1)
  {
    var d, o := ray.dir.At(a), ray.orig.At(a);
    var x, y := b.min.At(a) - o, b.max.At(a) - o;
    if d > 0.0 {
      DivideLess(x, t, d);
      DivideGreater(y, t, d);
    } else if d < 0.0 {
      var e := -d;
      assert 1.0 / d == -(1.0 / e);
      DivideLess(-y, t, e);
      DivideGreater(-x, t, e);
      assert (-y) * (1.0 / e) == y * (1.0 / d);
      assert (-x) * (1.0 / e) == x * (1.0 / d);
    }
  }

  /** A window that keeps `t` strictly inside through every remaining slab
      stays non-empty. */
  lemma {:induction false} WindowKeeps(b: Box, ray: Ray, a: nat, lo: ExtReal, hi: ExtReal, t: real)
    requires a <= 3 && Lt(lo, Fin(t)) && Lt(Fin(t), hi)
    requires forall k :: a <= k < 3 ==> Lt(Slab(b, ray, k).0, Fin(t)) && Lt(Fin(t), Slab(b, ray, k).1)
    ensures Window(b, ray, a, lo, hi).Some?
    decreases 3 - a
  {
    if a < 3 {
      var (t0, t1) := Slab(b, ray, a);
      WindowKeeps(b, ray, a + 1, ExtReals.Max(lo, t0), ExtReals.Min(hi, t1), t);
    }
  }

  /** Soundness of the slab test: a ray that is strictly inside the box at
      some distance strictly between `t_min` and `t_max` hits the box. */
  lemma HitIfInside(b: Box, ray: Ray, tMin: real, tMax: real, t: real)
    requires tMin < t < tMax && StrictlyInside(b, ray.At(t))
    ensures Hits(b, ray, tMin, tMax)
  {
    forall k | 0 <= k < 3
      ensures Lt(Slab(b, ray, k).0, Fin(t)) && Lt(Fin(t), Slab(b, ray, k).1)
    {
      assert ray.At(t).At(k) == ray.orig.At(k) + t * ray.dir.At(k);
      SlabAdmits(b, ray, k, t);
    }
    WindowKeeps(b, ray, 0, Fin(tMin), Fin(tMax), t);
  }
}
