/** The wrappers of src/hittable.rs in the `Interval` generation:
    `Translate` and `RotateY`. */
module Hittables {
  import opened Floats
  import opened ExtReals
  import opened Vectors
  import opened Rays
  import opened Intervals
  import opened Boxes
  import opened Scene
  import opened Utils
  import Rotations

  /** `Translate { object, offset, bbox }`. */
  datatype Translate = Translate(inner: Hittable, offset: Vec3, bbox: Bounds)

  /** `Translate::new(p, displacement)`: the box is the object's box moved
      by the displacement, computed once here. */
  function NewTranslate(p: Hittable, displacement: Vec3): (tr: Translate)
    ensures tr.inner == p && tr.offset == displacement
    ensures tr.bbox == Offset(p.bbox, displacement)
    ensures forall q :: tr.bbox.Holds(Add(q, displacement)) <==> p.bbox.Holds(q)
  {
    Translate(p, displacement, Offset(p.bbox, displacement))
  }

  /** The ray `hit` hands to the object: the origin moved back by the
      offset, the direction and the time kept. */
  function OffsetRay(r: Ray, offset: Vec3): (r': Ray)
    ensures r'.orig == Sub(r.orig, offset) && r'.dir == r.dir && r'.tm == r.tm
    ensures forall t :: Add(r'.At(t), offset) == r.At(t)
  {
    var r' := WithOriginDirectionAndTime(Sub(r.orig, offset), r.dir, r.tm);
    assert forall t :: Add(r'.At(t), offset) == r.At(t) by {
      forall t ensures Add(r'.At(t), offset) == r.At(t) {
        ExtensionalAt(Add(r'.At(t), offset), r.At(t));
      }
    }
    r'
  }

  /** `Translate::hit`: a miss of the object on the moved ray is a miss,
      with the record as the object left it; on a hit only `p` changes, by
      `+offset`. */
  function TranslateHit(tr: Translate, r: Ray, rayT: Interval, rec: HitRecord): (res: (bool, HitRecord))
    ensures var inner := tr.inner.hit(OffsetRay(r, tr.offset), rayT, rec);
      && res.0 == inner.0
      && (!res.0 ==> res.1 == inner.1)
      && (res.0 ==> Sub(res.1.p, tr.offset) == inner.1.p)
      && (res.0 ==> res.1.t == inner.1.t && res.1.normal == inner.1.normal && res.1.mat == inner.1.mat)
      && (res.0 ==> res.1.u == inner.1.u && res.1.v == inner.1.v && res.1.frontFace == inner.1.frontFace)
  {
    var offsetR := OffsetRay(r, tr.offset);
    var (hit, rec') := tr.inner.hit(offsetR, rayT, rec);
    if !hit then (false, rec')
    else
      var moved := rec'.(p := Add(rec'.p, tr.offset));
      ExtensionalAt(Sub(moved.p, tr.offset), rec'.p);
      (true, moved)
  }

  /** When the object puts its hit on the moved ray at its `t`, the
      translated hit lies on the original ray at the same `t`. */
  lemma TranslateHitOnOriginalRay(tr: Translate, r: Ray, rayT: Interval, rec: HitRecord)
    requires var inner := tr.inner.hit(OffsetRay(r, tr.offset), rayT, rec);
      inner.0 ==> inner.1.p == OffsetRay(r, tr.offset).At(inner.1.t)
    ensures var res := TranslateHit(tr, r, rayT, rec); res.0 ==> res.1.p == r.At(res.1.t)
  {
    var res := TranslateHit(tr, r, rayT, rec);
    if res.0 {
      var inner := tr.inner.hit(OffsetRay(r, tr.offset), rayT, rec).1;
      assert Add(Sub(res.1.p, tr.offset), tr.offset) == res.1.p by {
        ExtensionalAt(Add(Sub(res.1.p, tr.offset), tr.offset), res.1.p);
      }
    }
  }

  /** With a zero offset the wrapper answers as the object does. */
  lemma TranslateByZero(p: Hittable, r: Ray, rayT: Interval, rec: HitRecord)
    ensures TranslateHit(NewTranslate(p, Zero), r, rayT, rec) == p.hit(r, rayT, rec)
    ensures NewTranslate(p, Zero).bbox == p.bbox
  {
    ExtensionalAt(Sub(r.orig, Zero), r.orig);
    assert OffsetRay(r, Zero) == r;
    var inner := p.hit(r, rayT, rec);
    ExtensionalAt(Add(inner.1.p, Zero), inner.1.p);
    OffsetZero(p.bbox);
  }

  /** A translated object keeps to the interval when the object does. */
  lemma TranslateRespects(tr: Translate)
    requires Respects(tr.inner)
    ensures Respects(TranslateObject(tr))
  {
  }

  /** `Translate` as a `dyn Hittable`: the trait defaults for `pdf_value`
      and `random`. */
  function TranslateObject(tr: Translate): (h: Hittable)
    ensures h.bbox == tr.bbox && h.pdfValue == DefaultPdfValue && h.random == DefaultRandom
    ensures forall r, i, rec :: h.hit(r, i, rec) == TranslateHit(tr, r, i, rec)
  {
    Hittable((r, i, rec) => TranslateHit(tr, r, i, rec), tr.bbox, DefaultPdfValue, DefaultRandom)
  }

  /** `RotateY { object, sin_theta, cos_theta, bbox }`. */
  datatype RotateY = RotateY(inner: Hittable, sinTheta: real, cosTheta: real, bbox: Bounds)

  /** The corner `(i, j, k)` of a finite box, `n = 4 i + 2 j + k`, as the
      loop of `RotateY::new` transforms it: `x` becomes
      `cos * x * sin * z` (a product where a rotation has a sum), `y` is
      kept and `z` becomes `-sin * x + cos * z`. */
  function CornerY(b: Bounds, s: real, c: real, n: nat): (r: Vec3)
    requires b.Finite() && n < 8
    ensures r.y == (if (n / 2) % 2 == 1 then b.y.max.r else b.y.min.r)
  {
    var i, j, k := n / 4, (n / 2) % 2, n % 2;
    var x := i as real * b.x.max.r + (1 - i) as real * b.x.min.r;
    var y := j as real * b.y.max.r + (1 - j) as real * b.y.min.r;
    var z := k as real * b.z.max.r + (1 - k) as real * b.z.min.r;
    var newx := c * x * s * z;
    var newz := -s * x + c * z;
    Vec3(newx, y, newz)
  }

  /** The running `min` and `max` of the corner loop, three extended reals
      each. */
  datatype Hull = Hull(lo: seq<ExtReal>, hi: seq<ExtReal>)

  /** `min` starts at `+inf` and `max` at `-inf` on every axis. */
  const StartHull := Hull([PosInf, PosInf, PosInf], [NegInf, NegInf, NegInf])

  /** One pass of the innermost loop over `c`: `f64::min` and `f64::max`
      with the corner, axis by axis. */
  function TakeInY(h: Hull, p: Vec3): (r: Hull)
    requires |h.lo| == 3 && |h.hi| == 3
    ensures |r.lo| == 3 && |r.hi| == 3
    ensures forall c :: 0 <= c < 3 ==> r.lo[c] == ExtReals.Min(h.lo[c], Fin(p.At(c)))
    ensures forall c :: 0 <= c < 3 ==> r.hi[c] == ExtReals.Max(h.hi[c], Fin(p.At(c)))
  {
    Hull(seq(3, c requires 0 <= c < 3 => ExtReals.Min(h.lo[c], Fin(p.At(c)))),
         seq(3, c requires 0 <= c < 3 => ExtReals.Max(h.hi[c], Fin(p.At(c)))))
  }

  /** The hull after the first `n` corners. */
  function HullAfter(b: Bounds, s: real, c: real, n: nat): (r: Hull)
    requires b.Finite() && n <= 8
    ensures |r.lo| == 3 && |r.hi| == 3
  {
    if n == 0 then StartHull else TakeInY(HullAfter(b, s, c, n - 1), CornerY(b, s, c, n - 1))
  }

  /** Every corner taken in lies between the hull's bounds, and once a
      corner is in, the bounds are finite. */
  lemma {:induction false} HullHoldsCorners(b: Bounds, s: real, c: real, n: nat)
    requires b.Finite() && n <= 8
    ensures forall m, a :: 0 <= m < n && 0 <= a < 3 ==>
      Le(HullAfter(b, s, c, n).lo[a], Fin(CornerY(b, s, c, m).At(a))) &&
      Le(Fin(CornerY(b, s, c, m).At(a)), HullAfter(b, s, c, n).hi[a])
    ensures n > 0 ==> forall a :: 0 <= a < 3 ==> HullAfter(b, s, c, n).lo[a].Fin? && HullAfter(b, s, c, n).hi[a].Fin?
  {
    if n > 0 {
      HullHoldsCorners(b, s, c, n - 1);
      var h, h' := HullAfter(b, s, c, n - 1), HullAfter(b, s, c, n);
      forall m, a | 0 <= m < n && 0 <= a < 3
        ensures Le(h'.lo[a], Fin(CornerY(b, s, c, m).At(a))) && Le(Fin(CornerY(b, s, c, m).At(a)), h'.hi[a])
      {
        if m < n - 1 {
          LeTransitive(h'.lo[a], h.lo[a], Fin(CornerY(b, s, c, m).At(a)));
          LeTransitive(Fin(CornerY(b, s, c, m).At(a)), h.hi[a], h'.hi[a]);
        }
      }
    }
  }

  /** The box `new_with_point(min, max)` makes of a hull whose bounds are
      finite. */
  function HullBox(h: Hull): Bounds
    requires |h.lo| == 3 && |h.hi| == 3 && forall a :: 0 <= a < 3 ==> h.lo[a].Fin? && h.hi[a].Fin?
  {
    WithPoints(Vec3(h.lo[0].r, h.lo[1].r, h.lo[2].r), Vec3(h.hi[0].r, h.hi[1].r, h.hi[2].r))
  }

  /** The innermost loop of `RotateY::new`: `c` runs over the three axes. */
  method TakeInYLoop(h: Hull, tester: Vec3) returns (r: Hull)
    requires |h.lo| == 3 && |h.hi| == 3
    ensures r == TakeInY(h, tester)
  {
    var min, max := h.lo, h.hi;
    for c := 0 to 3
      invariant |min| == 3 && |max| == 3
      invariant forall a :: 0 <= a < c ==> min[a] == ExtReals.Min(h.lo[a], Fin(tester.At(a))) && max[a] == ExtReals.Max(h.hi[a], Fin(tester.At(a)))
      invariant forall a :: c <= a < 3 ==> min[a] == h.lo[a] && max[a] == h.hi[a]
    {
      min := min[c := ExtReals.Min(min[c], Fin(tester.At(c)))];
      max := max[c := ExtReals.Max(max[c], Fin(tester.At(c)))];
    }
    r := Hull(min, max);
  }

  /** `RotateY::new(p, angle)`: the sine and cosine of the angle in radians
      are stored, and the box is the one over the eight transformed corners
      of the object's box, each of which it holds. The object's box must be
      finite: a `0 * inf` in the corner formula would be NaN. */
  method NewRotateY(m: Libm, p: Hittable, angle: real) returns (ry: RotateY)
    requires p.bbox.Finite()
    ensures ry.inner == p
    ensures ry.sinTheta == m.sin(DegreesToRadians(angle)) && ry.cosTheta == m.cos(DegreesToRadians(angle))
    ensures forall n :: 0 <= n < 8 ==> ry.bbox.Holds(CornerY(p.bbox, ry.sinTheta, ry.cosTheta, n))
    ensures HullHoldsAll(p.bbox, ry.sinTheta, ry.cosTheta) && ry.bbox == HullBox(HullAfter(p.bbox, ry.sinTheta, ry.cosTheta, 8))
  {
    var radians := DegreesToRadians(angle);
    var sinTheta := m.sin(radians);
    var cosTheta := m.cos(radians);
    var bbox := p.bbox;
    var h := CornerLoop(bbox, sinTheta, cosTheta);
    HullHoldsCorners(bbox, sinTheta, cosTheta, 8);
    var box := HullBox(h);
    forall n | 0 <= n < 8 ensures box.Holds(CornerY(bbox, sinTheta, cosTheta, n)) {
      HullBoxHolds(h, CornerY(bbox, sinTheta, cosTheta, n));
    }
    ry := RotateY(p, sinTheta, cosTheta, box);
  }

  /** The three nested loops over `i`, `j` and `k` of `RotateY::new`. */
  method CornerLoop(bbox: Bounds, sinTheta: real, cosTheta: real) returns (h: Hull)
    requires bbox.Finite()
    ensures h == HullAfter(bbox, sinTheta, cosTheta, 8)
  {
    h := StartHull;
    for i := 0 to 2
      invariant h == HullAfter(bbox, sinTheta, cosTheta, 4 * i)
    {
      for j := 0 to 2
        invariant h == HullAfter(bbox, sinTheta, cosTheta, 4 * i + 2 * j)
      {
        for k := 0 to 2
          invariant h == HullAfter(bbox, sinTheta, cosTheta, 4 * i + 2 * j + k)
        {
          var n := 4 * i + 2 * j + k;
          var tester := CornerY(bbox, sinTheta, cosTheta, n);
          h := TakeInYLoop(h, tester);
          HullStep(bbox, sinTheta, cosTheta, n);
        }
      }
    }
  }

  lemma HullStep(b: Bounds, s: real, c: real, n: nat)
    requires b.Finite() && n < 8
    ensures HullAfter(b, s, c, n + 1) == TakeInY(HullAfter(b, s, c, n), CornerY(b, s, c, n))
  {
  }

  /** The hull over all eight corners has finite bounds. */
  ghost predicate HullHoldsAll(b: Bounds, s: real, c: real)
    requires b.Finite()
  {
    forall a :: 0 <= a < 3 ==> HullAfter(b, s, c, 8).lo[a].Fin? && HullAfter(b, s, c, 8).hi[a].Fin?
  }

  /** A point between a finite hull's bounds is in its box. */
  lemma HullBoxHolds(h: Hull, p: Vec3)
    requires |h.lo| == 3 && |h.hi| == 3 && forall a :: 0 <= a < 3 ==> h.lo[a].Fin? && h.hi[a].Fin?
    requires forall a :: 0 <= a < 3 ==> Le(h.lo[a], Fin(p.At(a))) && Le(Fin(p.At(a)), h.hi[a])
    ensures HullBox(h).Holds(p)
  {
    var lo, hi := Vec3(h.lo[0].r, h.lo[1].r, h.lo[2].r), Vec3(h.hi[0].r, h.hi[1].r, h.hi[2].r);
    assert forall a :: 0 <= a < 3 ==> lo.At(a) <= p.At(a) <= hi.At(a);
  }

  /** The product in the corner formula: at angle 0 (`sin = 0`,
      `cos = 1`) every transformed corner has `x = 0`, so the box holds no
      point off the plane `x = 0`, although the unrotated object may have
      any width in x. */
  lemma FlatAtAngleZero(b: Bounds, q: Vec3)
    requires b.Finite() && q.x != 0.0
    ensures forall n :: 0 <= n < 8 ==> CornerY(b, 0.0, 1.0, n).x == 0.0
    ensures HullHoldsAll(b, 0.0, 1.0) && !HullBox(HullAfter(b, 0.0, 1.0, 8)).Holds(q)
  {
    FlatHull(b, 8);
    var h := HullAfter(b, 0.0, 1.0, 8);
    HullHoldsCorners(b, 0.0, 1.0, 8);
    var lo, hi := Vec3(h.lo[0].r, h.lo[1].r, h.lo[2].r), Vec3(h.hi[0].r, h.hi[1].r, h.hi[2].r);
    assert lo.x == 0.0 && hi.x == 0.0;
    assert !(Floats.Min(lo.At(0), hi.At(0)) <= q.At(0) <= Floats.Max(lo.At(0), hi.At(0)));
  }

  lemma {:induction false} FlatHull(b: Bounds, n: nat)
    requires b.Finite() && 0 < n <= 8
    ensures HullAfter(b, 0.0, 1.0, n).lo[0] == Fin(0.0) && HullAfter(b, 0.0, 1.0, n).hi[0] == Fin(0.0)
  {
    assert CornerY(b, 0.0, 1.0, n - 1).At(0) == 0.0;
    if n > 1 {
      FlatHull(b, n - 1);
    }
  }

  /** The ray `RotateY::hit` hands to the object: origin and direction
      turned on the x/z plane, `y` and the time kept. The origin is turned
      by `-theta`; the direction's new `z` is `sin * x - cos * z`, with a
      minus where the origin's has a plus. */
  function RotatedRayY(ry: RotateY, r: Ray): (r': Ray)
    ensures r'.orig == Rotations.TurnBack(r.orig, 2, 0, ry.sinTheta, ry.cosTheta)
    ensures r'.orig.y == r.orig.y && r'.dir.y == r.dir.y && r'.tm == r.tm
    ensures r'.dir.x == ry.cosTheta * r.dir.x - ry.sinTheta * r.dir.z
    ensures r'.dir.z == ry.sinTheta * r.dir.x - ry.cosTheta * r.dir.z
  {
    var s, c := ry.sinTheta, ry.cosTheta;
    var o, d := r.orig, r.dir;
    var origin := o.With(0, c * o.At(0) - s * o.At(2)).With(2, s * o.At(0) + c * o.At(2));
    var direction := d.With(0, c * d.At(0) - s * d.At(2)).With(2, s * d.At(0) - c * d.At(2));
    ExtensionalAt(origin, Rotations.TurnBack(o, 2, 0, s, c));
    WithOriginDirectionAndTime(origin, direction, r.tm)
  }

  /** `RotateY::hit`: a miss of the object on the rotated ray is a miss,
      with the record as the object left it. On a hit the point and the
      normal are turned back by `+theta` on the x/z plane; `t` and the rest
      of the record are the object's. */
  function RotateYHit(ry: RotateY, r: Ray, rayT: Interval, rec: HitRecord): (res: (bool, HitRecord))
    ensures var inner := ry.inner.hit(RotatedRayY(ry, r), rayT, rec);
      && res.0 == inner.0
      && (!res.0 ==> res.1 == inner.1)
      && (res.0 ==> res.1.p == Rotations.TurnForward(inner.1.p, 2, 0, ry.sinTheta, ry.cosTheta))
      && (res.0 ==> res.1.normal == Rotations.TurnForward(inner.1.normal, 2, 0, ry.sinTheta, ry.cosTheta))
      && (res.0 ==> res.1.p.y == inner.1.p.y && res.1.normal.y == inner.1.normal.y)
      && (res.0 ==> res.1.t == inner.1.t && res.1.mat == inner.1.mat && res.1.u == inner.1.u && res.1.v == inner.1.v)
      && (res.0 ==> res.1.frontFace == inner.1.frontFace)
  {
    var s, c := ry.sinTheta, ry.cosTheta;
    var (hit, rec') := ry.inner.hit(RotatedRayY(ry, r), rayT, rec);
    if !hit then (false, rec')
    else
      var p0 := rec'.p;
      var p := p0.With(0, c * p0.At(0) + s * p0.At(2)).With(2, -s * p0.At(0) + c * p0.At(2));
      var n0 := rec'.normal;
      var normal := n0.With(0, c * n0.At(0) + s * n0.At(2)).With(2, -s * n0.At(0) + c * n0.At(2));
      ExtensionalAt(p, Rotations.TurnForward(p0, 2, 0, s, c));
      ExtensionalAt(normal, Rotations.TurnForward(n0, 2, 0, s, c));
      (true, rec'.(p := p, normal := normal))
  }

  /** The direction's sign slip: at angle 0 the origin is kept but the
      direction's `z` is negated, so the object is asked about a different
      ray than the one it was given whenever `z != 0`. */
  lemma RotateYDirectionQuirk(p: Hittable, bbox: Bounds, r: Ray)
    ensures var r' := RotatedRayY(RotateY(p, 0.0, 1.0, bbox), r);
      r'.orig == r.orig && r'.dir == Vec3(r.dir.x, r.dir.y, -r.dir.z)
  {
    var r' := RotatedRayY(RotateY(p, 0.0, 1.0, bbox), r);
    ExtensionalAt(r'.orig, r.orig);
  }

  /** The origin and the hit point are turned by opposite angles: with
      `sin^2 + cos^2 = 1` turning a point given to the object back gives
      it again. */
  lemma RotateYPointRoundTrip(ry: RotateY, q: Vec3)
    requires ry.sinTheta * ry.sinTheta + ry.cosTheta * ry.cosTheta == 1.0
    ensures Rotations.TurnForward(Rotations.TurnBack(q, 2, 0, ry.sinTheta, ry.cosTheta), 2, 0, ry.sinTheta, ry.cosTheta) == q
  {
    Rotations.TurnRoundTrip(q, 2, 0, ry.sinTheta, ry.cosTheta);
  }

  /** `RotateY` as a `dyn Hittable`, with the cached box and the trait
      defaults. */
  function RotateYObject(ry: RotateY): (h: Hittable)
    ensures h.bbox == ry.bbox && h.pdfValue == DefaultPdfValue && h.random == DefaultRandom
    ensures forall r, i, rec :: h.hit(r, i, rec) == RotateYHit(ry, r, i, rec)
  {
    Hittable((r, i, rec) => RotateYHit(ry, r, i, rec), ry.bbox, DefaultPdfValue, DefaultRandom)
  }
}
