/** Rotation of an object about a coordinate axis (src/rotate.rs, nalgebra
    generation). */
module Rotations {
  import opened Floats
  import opened Vectors
  import opened Rays
  import opened Aabb
  import opened Shapes

  datatype Axis = X | Y | Z

  /** `get_axis`: `(r_axis, a_axis, b_axis)`, the rotation axis and the two
      axes of the rotated plane. */
  function GetAxis(axis: Axis): (r: (nat, nat, nat))
    ensures r.0 < 3 && r.1 < 3 && r.2 < 3
    ensures r.0 != r.1 && r.1 != r.2 && r.0 != r.2
    ensures axis == X <==> r.0 == 0
    ensures axis == Y <==> r.0 == 1
    ensures axis == Z <==> r.0 == 2
    ensures r.1 == (r.0 + 1) % 3 && r.2 == (r.0 + 2) % 3
  {
    match axis
    case X => (0, 1, 2)
    case Y => (1, 2, 0)
    case Z => (2, 0, 1)
  }

  /** The source's `Rotate` with its cached box. */
  datatype Rotate = Rotate(axis: Axis, sinTheta: real, cosTheta: real, inner: Shape, bbox: Option<Box>)

  /** The turn by `-theta` that `hit` applies to the ray: components `a`
      and `b` become `cos * v[a] + sin * v[b]` and `-sin * v[a] + cos * v[b]`.
      The third component is kept. */
  function TurnBack(v: Vec3, a: nat, b: nat, s: real, c: real): (r: Vec3)
    requires a < 3 && b < 3 && a != b
    ensures r.At(a) == Mix(c, s, v.At(a), v.At(b)) && r.At(b) == Mix(-s, c, v.At(a), v.At(b))
    ensures forall i :: 0 <= i < 3 && i != a && i != b ==> r.At(i) == v.At(i)
  {
    v.With(a, Mix(c, s, v.At(a), v.At(b))).With(b, Mix(-s, c, v.At(a), v.At(b)))
  }

  /** The turn by `theta` that `hit` applies to the hit point and normal:
      `cos * v[a] - sin * v[b]` and `sin * v[a] + cos * v[b]`. */
  function TurnForward(v: Vec3, a: nat, b: nat, s: real, c: real): (r: Vec3)
    requires a < 3 && b < 3 && a != b
    ensures r.At(a) == Mix(c, -s, v.At(a), v.At(b)) && r.At(b) == Mix(s, c, v.At(a), v.At(b))
    ensures forall i :: 0 <= i < 3 && i != a && i != b ==> r.At(i) == v.At(i)
  {
    v.With(a, Mix(c, -s, v.At(a), v.At(b))).With(b, Mix(s, c, v.At(a), v.At(b)))
  }

  /** `p * x + q * y`, one component of a turn. */
  function Mix(p: real, q: real, x: real, y: real): real
  {
    p * x + q * y
  }

  /** With `sin^2 + cos^2 = 1` the two turns undo each other. */
  lemma TurnRoundTrip(v: Vec3, a: nat, b: nat, s: real, c: real)
    requires a < 3 && b < 3 && a != b && s * s + c * c == 1.0
    ensures TurnForward(TurnBack(v, a, b, s, c), a, b, s, c) == v
  {
    var w := TurnBack(v, a, b, s, c);
    var r := TurnForward(w, a, b, s, c);
    var va, vb := v.At(a), v.At(b);
    calc {
      r.At(a);
      c * (c * va + s * vb) - s * (-s * va + c * vb);
      (s * s + c * c) * va;
    }
    calc {
      r.At(b);
      s * (c * va + s * vb) + c * (-s * va + c * vb);
      (s * s + c * c) * vb;
    }
    ExtensionalAt(r, v);
  }

  /** Turning commutes with the ray's parametrisation. */
  lemma TurnBackAlongRay(ray: Ray, a: nat, b: nat, s: real, c: real, t: real)
    requires a < 3 && b == (a + 1) % 3
    ensures TurnBack(ray.At(t), a, b, s, c)
         == Ray(TurnBack(ray.orig, a, b, s, c), TurnBack(ray.dir, a, b, s, c), ray.tm).At(t)
  {
    var o, d := ray.orig, ray.dir;
    TurnBackAdd(o, Scale(t, d), a, b, s, c);
    TurnBackScale(t, d, a, b, s, c);
  }

  lemma TurnBackAdd(u: Vec3, v: Vec3, a: nat, b: nat, s: real, c: real)
    requires a < 3 && b < 3 && a != b
    ensures TurnBack(Add(u, v), a, b, s, c) == Add(TurnBack(u, a, b, s, c), TurnBack(v, a, b, s, c))
  {
    var lhs, rhs := TurnBack(Add(u, v), a, b, s, c), Add(TurnBack(u, a, b, s, c), TurnBack(v, a, b, s, c));
    forall i | 0 <= i < 3 ensures lhs.At(i) == rhs.At(i) {
      if i == a {
        MixAdd(c, s, u.At(a), u.At(b), v.At(a), v.At(b));
      } else if i == b {
        MixAdd(-s, c, u.At(a), u.At(b), v.At(a), v.At(b));
      }
    }
    ExtensionalAt(lhs, rhs);
  }

  lemma MixAdd(p: real, q: real, x: real, y: real, x': real, y': real)
    ensures Mix(p, q, x + x', y + y') == Mix(p, q, x, y) + Mix(p, q, x', y')
  {
  }

  /** Turning commutes with scaling, for the axis pairs `get_axis` gives
      (`b` follows `a` cyclically). */
  lemma TurnBackScale(t: real, v: Vec3, a: nat, b: nat, s: real, c: real)
    requires a < 3 && b == (a + 1) % 3
    ensures TurnBack(Scale(t, v), a, b, s, c) == Scale(t, TurnBack(v, a, b, s, c))
  {
    if a == 0 {
      assert b == 1;
      TurnBackScaleZ(t, v, s, c);
    } else if a == 1 {
      assert b == 2;
      TurnBackScaleX(t, v, s, c);
    } else {
      assert b == 0;
      TurnBackScaleY(t, v, s, c);
    }
  }

  /** The three cases of `TurnBackScale`, one per rotation axis. */
  lemma TurnBackScaleX(t: real, v: Vec3, s: real, c: real)
    ensures TurnBack(Scale(t, v), 1, 2, s, c) == Scale(t, TurnBack(v, 1, 2, s, c))
  {
    var lhs, rhs := TurnBack(Scale(t, v), 1, 2, s, c), Scale(t, TurnBack(v, 1, 2, s, c));
    MixScale(c, s, t, v.y, v.z);
    MixScale(-s, c, t, v.y, v.z);
    assert lhs.x == rhs.x && lhs.y == rhs.y && lhs.z == rhs.z;
  }

  lemma TurnBackScaleY(t: real, v: Vec3, s: real, c: real)
    ensures TurnBack(Scale(t, v), 2, 0, s, c) == Scale(t, TurnBack(v, 2, 0, s, c))
  {
    var lhs, rhs := TurnBack(Scale(t, v), 2, 0, s, c), Scale(t, TurnBack(v, 2, 0, s, c));
    MixScale(c, s, t, v.z, v.x);
    MixScale(-s, c, t, v.z, v.x);
    assert lhs.x == rhs.x && lhs.y == rhs.y && lhs.z == rhs.z;
  }

  lemma TurnBackScaleZ(t: real, v: Vec3, s: real, c: real)
    ensures TurnBack(Scale(t, v), 0, 1, s, c) == Scale(t, TurnBack(v, 0, 1, s, c))
  {
    var lhs, rhs := TurnBack(Scale(t, v), 0, 1, s, c), Scale(t, TurnBack(v, 0, 1, s, c));
    MixScale(c, s, t, v.x, v.y);
    MixScale(-s, c, t, v.x, v.y);
    assert lhs.x == rhs.x && lhs.y == rhs.y && lhs.z == rhs.z;
  }

  lemma MixScale(p: real, q: real, t: real, x: real, y: real)
    ensures Mix(p, q, t * x, t * y) == t * Mix(p, q, x, y)
  {
  }

  /** The ray in the inner object's frame: origin and direction turned back
      on the `a`/`b` plane; the `r_axis` components and the time are kept. */
  function RotatedRay(rot: Rotate, ray: Ray): (r: Ray)
    ensures var (ra, aa, ba) := GetAxis(rot.axis);
      r.orig.At(ra) == ray.orig.At(ra) && r.dir.At(ra) == ray.dir.At(ra) && r.tm == ray.tm
  {
    var (ra, aa, ba) := GetAxis(rot.axis);
    Ray(TurnBack(ray.orig, aa, ba, rot.sinTheta, rot.cosTheta),
        TurnBack(ray.dir, aa, ba, rot.sinTheta, rot.cosTheta), ray.tm)
  }

  /** `Rotate::hit`: the inner object is hit by the rotated ray; on a hit
      only the point and the normal are turned forward, on the `a`/`b`
      plane. */
  function RotateHit(rot: Rotate, ray: Ray, tMin: real, tMax: real): (r: Option<Hit>)
    ensures r.None? <==> rot.inner.hit(RotatedRay(rot, ray), tMin, tMax).None?
    ensures r.Some? ==> var h := rot.inner.hit(RotatedRay(rot, ray), tMin, tMax).value;
      var (ra, aa, ba) := GetAxis(rot.axis);
      && r.value.t == h.t && r.value.u == h.u && r.value.v == h.v && r.value.material == h.material
      && r.value.p == TurnForward(h.p, aa, ba, rot.sinTheta, rot.cosTheta)
      && r.value.normal == TurnForward(h.normal, aa, ba, rot.sinTheta, rot.cosTheta)
      && r.value.p.At(ra) == h.p.At(ra) && r.value.normal.At(ra) == h.normal.At(ra)
  {
    var (ra, aa, ba) := GetAxis(rot.axis);
    match rot.inner.hit(RotatedRay(rot, ray), tMin, tMax)
    case None => None
    case Some(h) =>
      Some(h.(p := TurnForward(h.p, aa, ba, rot.sinTheta, rot.cosTheta),
              normal := TurnForward(h.normal, aa, ba, rot.sinTheta, rot.cosTheta)))
  }

  /** When the inner object places its hit on the rotated ray at distance
      `t`, the rotated hit lies on the original ray at the same distance. */
  lemma HitOnOriginalRay(rot: Rotate, ray: Ray, tMin: real, tMax: real)
    requires rot.sinTheta * rot.sinTheta + rot.cosTheta * rot.cosTheta == 1.0
    requires var h := rot.inner.hit(RotatedRay(rot, ray), tMin, tMax);
      h.Some? ==> h.value.p == RotatedRay(rot, ray).At(h.value.t)
    ensures var r := RotateHit(rot, ray, tMin, tMax); r.Some? ==> r.value.p == ray.At(r.value.t)
  {
    var r := RotateHit(rot, ray, tMin, tMax);
    if r.Some? {
      var (ra, aa, ba) := GetAxis(rot.axis);
      var t := r.value.t;
      TurnBackAlongRay(ray, aa, ba, rot.sinTheta, rot.cosTheta, t);
      TurnRoundTrip(ray.At(t), aa, ba, rot.sinTheta, rot.cosTheta);
    }
  }

  /** `Rotate::bounding_box`: the cached box, whatever the times. */
  function RotateBoundingBox(rot: Rotate, t0: real, t1: real): (r: Option<Box>)
    ensures r == rot.bbox
  {
    rot.bbox
  }

  /** The box does not depend on the times asked for. */
  lemma BoundingBoxIgnoresTimes(rot: Rotate, t0: real, t1: real, t0': real, t1': real)
    ensures RotateBoundingBox(rot, t0, t1) == RotateBoundingBox(rot, t0', t1')
  {
  }

  /** The corner the loop body of `Rotate::new` computes for its counter
      `k` (the counters `i` and `j` are not used): `min` (k = 0) or `max`
      (k = 1) of the inner box on every axis, turned forward on the `a`/`b`
      plane. */
  function Corner(b: Box, axis: Axis, s: real, c: real, k: nat): (r: Vec3)
    requires k < 2
    ensures r == TurnForward(if k == 0 then b.min else b.max, GetAxis(axis).1, GetAxis(axis).2, s, c)
  {
    var (ra, aa, ba) := GetAxis(axis);
    var kf, lf := k as real, (1 - k) as real;
    var x := kf * b.max.At(ra) + lf * b.min.At(ra);
    var y := kf * b.max.At(aa) + lf * b.min.At(aa);
    var z := kf * b.max.At(ba) + lf * b.min.At(ba);
    var r := Zero.With(ra, x).With(aa, c * y - s * z).With(ba, s * y + c * z);
    ExtensionalAt(r, TurnForward(if k == 0 then b.min else b.max, aa, ba, s, c));
    r
  }

  /** `min` and `max` both moved just far enough to take in `p`. */
  function Widen(bx: Box, p: Vec3): (r: Box)
    ensures Inside(r, p)
    ensures forall q :: Inside(bx, q) ==> Inside(r, q)
    ensures Inside(bx, p) ==> r == bx
  {
    var r := Box(Vec3(Min(bx.min.x, p.x), Min(bx.min.y, p.y), Min(bx.min.z, p.z)),
                 Vec3(Max(bx.max.x, p.x), Max(bx.max.y, p.y), Max(bx.max.z, p.z)));
    assert Inside(bx, p) ==> r == bx by {
      if Inside(bx, p) {
        assert bx.min.At(0) <= p.At(0) <= bx.max.At(0);
        assert bx.min.At(1) <= p.At(1) <= bx.max.At(1);
        assert bx.min.At(2) <= p.At(2) <= bx.max.At(2);
      }
    }
    r
  }

  /** The box `[f64::MIN, f64::MAX]` on every axis that the loop starts
      from. */
  const Widest := Box(Vec3(F64Min, F64Min, F64Min), Vec3(F64Max, F64Max, F64Max))

  /** The box after the first `n` distinct corners have been taken in. */
  function BoxAfter(b: Box, axis: Axis, s: real, c: real, n: nat): Box
    requires n <= 2
  {
    if n == 0 then Widest else Widen(BoxAfter(b, axis, s, c, n - 1), Corner(b, axis, s, c, n - 1))
  }

  /** The box after both corners holds both. */
  lemma BoxAfterHoldsCorners(b: Box, axis: Axis, s: real, c: real)
    ensures Inside(BoxAfter(b, axis, s, c, 2), Corner(b, axis, s, c, 0))
    ensures Inside(BoxAfter(b, axis, s, c, 2), Corner(b, axis, s, c, 1))
  {
  }

  /** One pass of the loop body of `Rotate::new`: the six strict
      comparisons, each replacing one component of `min` or `max`. */
  method TakeIn(min: Vec3, max: Vec3, p: Vec3, ra: nat, aa: nat, ba: nat) returns (min': Vec3, max': Vec3)
    requires ra < 3 && aa < 3 && ba < 3 && ra != aa && aa != ba && ra != ba
    ensures Box(min', max') == Widen(Box(min, max), p)
  {
    min' := Lower(min, p, ra, aa, ba);
    max' := Raise(max, p, ra, aa, ba);
  }

  /** The three comparisons on `min`, in the order `a`, `b`, `r`: each
      component drops to `p`'s when that is strictly smaller. */
  method Lower(min: Vec3, p: Vec3, ra: nat, aa: nat, ba: nat) returns (min': Vec3)
    requires ra < 3 && aa < 3 && ba < 3 && ra != aa && aa != ba && ra != ba
    ensures min' == Vec3(Min(min.x, p.x), Min(min.y, p.y), Min(min.z, p.z))
  {
    var newA, newB, r := p.At(aa), p.At(ba), p.At(ra);
    min' := min;
    if newA < min'.At(aa) { min' := min'.With(aa, newA); }
    assert min'.At(aa) == Min(min.At(aa), newA) && min'.At(ba) == min.At(ba) && min'.At(ra) == min.At(ra);
    if newB < min'.At(ba) { min' := min'.With(ba, newB); }
    assert min'.At(aa) == Min(min.At(aa), newA) && min'.At(ba) == Min(min.At(ba), newB) && min'.At(ra) == min.At(ra);
    if r < min'.At(ra) { min' := min'.With(ra, r); }
    assert min'.At(aa) == Min(min.At(aa), newA) && min'.At(ba) == Min(min.At(ba), newB) && min'.At(ra) == Min(min.At(ra), r);
    var w := Vec3(Min(min.x, p.x), Min(min.y, p.y), Min(min.z, p.z));
    forall i | 0 <= i < 3 ensures min'.At(i) == w.At(i) {
      assert i == ra || i == aa || i == ba;
    }
    ExtensionalAt(min', w);
  }

  /** The three comparisons on `max`, in the order `a`, `b`, `r`: each
      component rises to `p`'s when that is strictly larger. */
  method Raise(max: Vec3, p: Vec3, ra: nat, aa: nat, ba: nat) returns (max': Vec3)
    requires ra < 3 && aa < 3 && ba < 3 && ra != aa && aa != ba && ra != ba
    ensures max' == Vec3(Max(max.x, p.x), Max(max.y, p.y), Max(max.z, p.z))
  {
    var newA, newB, r := p.At(aa), p.At(ba), p.At(ra);
    max' := max;
    if newA > max'.At(aa) { max' := max'.With(aa, newA); }
    assert max'.At(aa) == Max(max.At(aa), newA) && max'.At(ba) == max.At(ba) && max'.At(ra) == max.At(ra);
    if newB > max'.At(ba) { max' := max'.With(ba, newB); }
    assert max'.At(aa) == Max(max.At(aa), newA) && max'.At(ba) == Max(max.At(ba), newB) && max'.At(ra) == max.At(ra);
    if r > max'.At(ra) { max' := max'.With(ra, r); }
    assert max'.At(aa) == Max(max.At(aa), newA) && max'.At(ba) == Max(max.At(ba), newB) && max'.At(ra) == Max(max.At(ra), r);
    var w := Vec3(Max(max.x, p.x), Max(max.y, p.y), Max(max.z, p.z));
    forall i | 0 <= i < 3 ensures max'.At(i) == w.At(i) {
      assert i == ra || i == aa || i == ba;
    }
    ExtensionalAt(max', w);
  }

  /** The box loop of `Rotate::new` over one inner box: `i`, `j` and `k`
      each run over 0..2, the body taking in corner `k`. */
  method RotatedBox(b: Box, axis: Axis, s: real, c: real) returns (r: Box)
    ensures r == BoxAfter(b, axis, s, c, 2)
    ensures Inside(r, Corner(b, axis, s, c, 0)) && Inside(r, Corner(b, axis, s, c, 1))
    ensures forall i :: 0 <= i < 3 ==> r.min.At(i) <= F64Min && F64Max <= r.max.At(i)
  {
    var (ra, aa, ba) := GetAxis(axis);
    var min := Widest.min;
    var max := Widest.max;
    for i := 0 to 2
      invariant Box(min, max) == BoxAfter(b, axis, s, c, if i > 0 then 2 else 0)
    {
      for j := 0 to 2
        invariant Box(min, max) == BoxAfter(b, axis, s, c, if i > 0 || j > 0 then 2 else 0)
      {
        for k := 0 to 2
          invariant Box(min, max) == BoxAfter(b, axis, s, c, if i > 0 || j > 0 then 2 else k)
        {
          var p := Corner(b, axis, s, c, k);
          BoxAfterStep(b, axis, s, c, k);
          min, max := TakeIn(min, max, p, ra, aa, ba);
        }
      }
    }
    r := Box(min, max);
    BoxAfterHoldsCorners(b, axis, s, c);
    BoxAfterHoldsWidest(b, axis, s, c);
  }

  /** Taking in corner `k` moves the box on from `k` corners to `k + 1`,
      and changes nothing once both are in. */
  lemma BoxAfterStep(b: Box, axis: Axis, s: real, c: real, k: nat)
    requires k < 2
    ensures Widen(BoxAfter(b, axis, s, c, k), Corner(b, axis, s, c, k)) == BoxAfter(b, axis, s, c, k + 1)
    ensures Widen(BoxAfter(b, axis, s, c, 2), Corner(b, axis, s, c, k)) == BoxAfter(b, axis, s, c, 2)
  {
    BoxAfterHoldsCorners(b, axis, s, c);
  }

  /** The loop only ever widens `[f64::MIN, f64::MAX]`. */
  lemma BoxAfterHoldsWidest(b: Box, axis: Axis, s: real, c: real)
    ensures forall i :: 0 <= i < 3 ==>
      BoxAfter(b, axis, s, c, 2).min.At(i) <= F64Min && F64Max <= BoxAfter(b, axis, s, c, 2).max.At(i)
  {
    var lo, hi := Widest.min, Widest.max;
    assert Inside(Widest, lo) && Inside(Widest, hi) by {
      assert F64Min <= F64Max;
    }
    assert BoxAfter(b, axis, s, c, 0) == Widest;
    var b1 := BoxAfter(b, axis, s, c, 1);
    assert b1 == Widen(Widest, Corner(b, axis, s, c, 0));
    assert Inside(b1, lo) && Inside(b1, hi);
    var r := BoxAfter(b, axis, s, c, 2);
    assert r == Widen(b1, Corner(b, axis, s, c, 1));
    assert Inside(r, lo) && Inside(r, hi);
    forall i | 0 <= i < 3 ensures r.min.At(i) <= F64Min && F64Max <= r.max.At(i) {
      assert lo.At(i) == F64Min && hi.At(i) == F64Max;
    }
  }

  /** The updates fire only strictly beyond `f64::MIN` and `f64::MAX`, so
      when every corner is a finite double the box is the widest one,
      whatever the inner box and the angle. */
  lemma FiniteCornersGiveWidest(b: Box, axis: Axis, s: real, c: real)
    requires Inside(Widest, Corner(b, axis, s, c, 0)) && Inside(Widest, Corner(b, axis, s, c, 1))
    ensures BoxAfter(b, axis, s, c, 2) == Widest
  {
    assert BoxAfter(b, axis, s, c, 1) == Widest;
  }

  /** `Rotate::new`: the angle in degrees becomes radians, its sine and
      cosine are stored, and the box is the corner loop's result when the
      inner object has a box for the times 0 to 1, and none otherwise. */
  method NewRotate(m: Libm, axis: Axis, inner: Shape, angle: real) returns (rot: Rotate)
    ensures rot.axis == axis && rot.inner == inner
    ensures rot.sinTheta == m.sin((Pi / 180.0) * angle) && rot.cosTheta == m.cos((Pi / 180.0) * angle)
    ensures rot.bbox.Some? <==> inner.boundingBox(0.0, 1.0).Some?
    ensures rot.bbox.Some? ==>
      rot.bbox.value == BoxAfter(inner.boundingBox(0.0, 1.0).value, axis, rot.sinTheta, rot.cosTheta, 2)
  {
    var radians := (Pi / 180.0) * angle;
    var sinTheta := m.sin(radians);
    var cosTheta := m.cos(radians);
    var bbox: Option<Box> := None;
    match inner.boundingBox(0.0, 1.0) {
      case None =>
      case Some(b) =>
        var r := RotatedBox(b, axis, sinTheta, cosTheta);
        bbox := Some(r);
    }
    rot := Rotate(axis, sinTheta, cosTheta, inner, bbox);
  }

  /** A rotation built from a lawful library has `sin^2 + cos^2 = 1`, so
      `HitOnOriginalRay` applies to it. */
  lemma NewRotatePythagorean(m: Libm, angle: real)
    requires m.Lawful()
    ensures m.sin((Pi / 180.0) * angle) * m.sin((Pi / 180.0) * angle)
          + m.cos((Pi / 180.0) * angle) * m.cos((Pi / 180.0) * angle) == 1.0
  {
    var x := (Pi / 180.0) * angle;
    assert m.sin(x) * m.sin(x) + m.cos(x) * m.cos(x) == 1.0;
  }

  function RotateShape(rot: Rotate): (sh: Shape)
    ensures forall ray, tMin, tMax :: sh.hit(ray, tMin, tMax).None? <==> rot.inner.hit(RotatedRay(rot, ray), tMin, tMax).None?
    ensures forall ray, tMin, tMax :: sh.hit(ray, tMin, tMax).Some? ==>
              sh.hit(ray, tMin, tMax).value.t == rot.inner.hit(RotatedRay(rot, ray), tMin, tMax).value.t
    ensures forall t0, t1 :: sh.boundingBox(t0, t1) == rot.bbox
  {
    Shape((ray, tMin, tMax) => RotateHit(rot, ray, tMin, tMax), (t0, t1) => RotateBoundingBox(rot, t0, t1))
  }
}
