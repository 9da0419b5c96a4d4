/** Participating media of the `Interval` generation
    (src/constant_medium.rs): a boundary object filled with a constant
    density, scattering through an isotropic phase function. */
module ConstantMedia {
  import opened Floats
  import opened ExtReals
  import opened Vectors
  import opened Rays
  import opened Intervals
  import opened Boxes
  import opened Scene

  /** The field `neg_inv_density` holds whatever the constructors were
      given. */
  datatype ConstantMedium = ConstantMedium(boundary: Hittable, negInvDensity: real, phaseFunction: Material)

  /** `ConstantMedium::with_texture(b, d, a)`: the density argument is
      stored as it is, not as `-1 / d`. */
  function WithTexture(b: Hittable, d: real, a: Texture): (c: ConstantMedium)
    ensures c.boundary == b && c.negInvDensity == d && c.phaseFunction == Isotropic(a)
  {
    ConstantMedium(b, d, Isotropic(a))
  }

  /** `ConstantMedium::with_color(b, d, c)`: as `with_texture` with a solid
      colour. */
  function WithColor(b: Hittable, d: real, c: Vec3): (m: ConstantMedium)
    ensures m == WithTexture(b, d, SolidColor(c))
    ensures m.negInvDensity == d
  {
    ConstantMedium(b, d, Isotropic(SolidColor(c)))
  }

  /** The boundary's `hit` over the whole line: the entry crossing. */
  function FirstQuery(c: ConstantMedium, r: Ray): (bool, HitRecord)
  {
    c.boundary.hit(r, Interval(NegInf, PosInf), NewRecord())
  }

  /** The boundary's `hit` from just past the entry crossing on: the exit
      crossing. */
  function SecondQuery(c: ConstantMedium, r: Ray): (bool, HitRecord)
  {
    c.boundary.hit(r, Interval(Fin(FirstQuery(c, r).1.t + 0.0001), PosInf), NewRecord())
  }

  /** `rec1.t` after it is raised to `ray_t.min`. */
  function Enter(t1: real, rayT: Interval): (e: ExtReal)
    ensures e == ExtReals.Max(Fin(t1), rayT.min)
    ensures e != NegInf
  {
    if Lt(Fin(t1), rayT.min) then rayT.min else Fin(t1)
  }

  /** `rec2.t` after it is lowered to `ray_t.max`. */
  function Exit(t2: real, rayT: Interval): (e: ExtReal)
    ensures e == ExtReals.Min(Fin(t2), rayT.max)
    ensures e != PosInf
  {
    if Lt(rayT.max, Fin(t2)) then rayT.max else Fin(t2)
  }

  /** Both boundary crossings exist and the clipped span is not empty. */
  predicate Spans(c: ConstantMedium, r: Ray, rayT: Interval)
  {
    FirstQuery(c, r).0 && SecondQuery(c, r).0
    && Lt(Enter(FirstQuery(c, r).1.t, rayT), Exit(SecondQuery(c, r).1.t, rayT))
  }

  /** Where travel inside the medium starts: the clipped entry, or 0 if that
      lies behind the origin. */
  function Start(c: ConstantMedium, r: Ray, rayT: Interval): (s: real)
    requires Spans(c, r, rayT)
    ensures s >= 0.0 && s >= Enter(FirstQuery(c, r).1.t, rayT).r
    ensures s < Exit(SecondQuery(c, r).1.t, rayT).r || Exit(SecondQuery(c, r).1.t, rayT).r <= 0.0
  {
    var a := Enter(FirstQuery(c, r).1.t, rayT).r;
    if a < 0.0 then 0.0 else a
  }

  /** Where travel inside the medium stops: the clipped exit. */
  function Stop(c: ConstantMedium, r: Ray, rayT: Interval): (s: real)
    requires Spans(c, r, rayT)
    ensures Le(Fin(s), rayT.max) && s <= SecondQuery(c, r).1.t
  {
    Exit(SecondQuery(c, r).1.t, rayT).r
  }

  /** `neg_inv_density * ln(U)` for the draw `U`. */
  function HitDistance(m: Libm, c: ConstantMedium, u: real): (r: real)
    ensures m.Lawful() && 0.0 < u < 1.0 && c.negInvDensity > 0.0 ==> r < 0.0
    ensures m.Lawful() && 0.0 < u < 1.0 && c.negInvDensity < 0.0 ==> r > 0.0
    ensures m.Lawful() && u == 1.0 ==> r == 0.0
  {
    c.negInvDensity * m.ln(u)
  }

  /** `ConstantMedium::hit`, with `u` the draw of `random_double()`. It
      misses, leaving `rec` alone, when either boundary query misses, when
      the clipped span is empty, and when the sampled distance is beyond the
      distance inside the boundary. Otherwise the record's `t` is the start
      plus the sampled distance in units of the direction's length, and
      `p`, the normal `(1, 0, 0)`, `front_face` and the phase function are
      set while `u` and `v` keep the caller's values.

      With the density stored as given, a positive density makes the
      sampled distance negative, so every ray that crosses the boundary
      ahead of its origin scatters, and before the point where it enters.
      Only a density at most 0 (what `-1 / d` would store) keeps the hit
      within `ray_t`. */
  method Hit(m: Libm, c: ConstantMedium, r: Ray, rayT: Interval, rec: HitRecord, u: real) returns (hit: bool, rec': HitRecord)
    requires m.Lawful() && 0.0 <= u < 1.0 && r.dir != Zero
    ensures !FirstQuery(c, r).0 || !SecondQuery(c, r).0 ==> !hit
    ensures Scatters(m, c, r, rayT, rec, u, hit, rec')
  {
    var rec1 := NewRecord();
    var rec2 := NewRecord();
    var (hit1, out1) := c.boundary.hit(r, Interval(NegInf, PosInf), rec1);
    rec1 := out1;
    assert FirstQuery(c, r) == (hit1, rec1);
    if !hit1 {
      return false, rec;
    }
    var (hit2, out2) := c.boundary.hit(r, Interval(Fin(rec1.t + 0.0001), PosInf), rec2);
    rec2 := out2;
    assert SecondQuery(c, r) == (hit2, rec2);
    if !hit2 {
      return false, rec;
    }
    // `rec1.t` and `rec2.t` as they are clipped; the bounds may be infinite.
    var t1: ExtReal := Fin(rec1.t);
    var t2: ExtReal := Fin(rec2.t);
    if Lt(t1, rayT.min) {
      t1 := rayT.min;
    }
    if Lt(rayT.max, t2) {
      t2 := rayT.max;
    }
    if Le(t2, t1) {
      return false, rec;
    }
    var start := t1.r;
    if start < 0.0 {
      start := 0.0;
    }
    hit, rec' := Travel(m, c, r, start, t2.r, rec, u);
    ClippedTravel(m, c, r, rayT, start, t2.r, rec, u, hit, rec');
  }

  /** The outcome of `ConstantMedium::hit` for the draw `u`: a hit exactly
      when the span is not empty and the sampled distance fits in it; a miss
      leaves the record alone; a hit places the record at the start plus the
      sampled distance in units of the direction's length, with the point,
      the normal `(1, 0, 0)`, `front_face`, the phase function and the
      caller's `u` and `v`. A positive density always scatters, before the
      start; a density at most 0 scatters inside the span and `ray_t`. */
  ghost predicate Scatters(m: Libm, c: ConstantMedium, r: Ray, rayT: Interval, rec: HitRecord, u: real,
                           hit: bool, rec': HitRecord)
    requires m.Lawful() && r.dir != Zero
  {
    (hit <==> (Spans(c, r, rayT) &&
      HitDistance(m, c, u) <= (Stop(c, r, rayT) - Start(c, r, rayT)) * Length(m, r.dir)))
    && (!hit ==> rec' == rec)
    && (Spans(c, r, rayT) ==> Moves(m, c, r, Start(c, r, rayT), Stop(c, r, rayT), rec, u, hit, rec'))
    && (c.negInvDensity <= 0.0 && 0.0 < u && hit ==> rayT.Contains(rec'.t))
  }

  /** What `Travel` promises between `start` and `stop`. */
  ghost predicate Moves(m: Libm, c: ConstantMedium, r: Ray, start: real, stop: real, rec: HitRecord, u: real,
                        hit: bool, rec': HitRecord)
    requires m.Lawful() && r.dir != Zero
  {
    (hit <==> HitDistance(m, c, u) <= (stop - start) * Length(m, r.dir))
    && (!hit ==> rec' == rec)
    && (hit ==> rec'.t * Length(m, r.dir) == start * Length(m, r.dir) + HitDistance(m, c, u))
    && (hit ==> (rec'.p == r.At(rec'.t) && rec'.normal == Vec3(1.0, 0.0, 0.0) && rec'.frontFace &&
      rec'.mat == Some(c.phaseFunction) && rec'.u == rec.u && rec'.v == rec.v))
    && ((c.negInvDensity > 0.0 && 0.0 < u && start <= stop) ==> (hit && rec'.t < start))
    && ((c.negInvDensity <= 0.0 && 0.0 < u && hit) ==> start <= rec'.t <= stop)
  }

  /** What `Travel` gives over the clipped span, stated in terms of the
      clipped entry and exit. */
  lemma ClippedTravel(m: Libm, c: ConstantMedium, r: Ray, rayT: Interval, start: real, stop: real,
                      rec: HitRecord, u: real, hit: bool, rec': HitRecord)
    requires m.Lawful() && 0.0 <= u < 1.0 && r.dir != Zero && Spans(c, r, rayT)
    requires start == Start(c, r, rayT) && stop == Stop(c, r, rayT)
    requires Moves(m, c, r, start, stop, rec, u, hit, rec')
    ensures Scatters(m, c, r, rayT, rec, u, hit, rec')
  {
    if c.negInvDensity <= 0.0 && 0.0 < u && hit {
      var e := Enter(FirstQuery(c, r).1.t, rayT);
      assert Le(rayT.min, e);
      LeTransitive(rayT.min, e, Fin(start));
      LeTransitive(rayT.min, Fin(start), Fin(rec'.t));
      LeTransitive(Fin(rec'.t), Fin(stop), rayT.max);
    }
  }

  /** The tail of `ConstantMedium::hit` once the span from `start` to
      `stop` is known: the sampled distance is compared with the distance
      inside the boundary, and on a hit the record is written. */
  method Travel(m: Libm, c: ConstantMedium, r: Ray, start: real, stop: real, rec: HitRecord, u: real)
    returns (hit: bool, rec': HitRecord)
    requires m.Lawful() && 0.0 <= u < 1.0 && r.dir != Zero
    ensures Moves(m, c, r, start, stop, rec, u, hit, rec')
  {
    var rayLength := Length(m, r.dir);
    var distanceInsideBoundary := (stop - start) * rayLength;
    var hitDistance := c.negInvDensity * m.ln(u);
    assert hitDistance == HitDistance(m, c, u);
    if hitDistance > distanceInsideBoundary {
      hit, rec' := false, rec;
    } else {
      var t := start + hitDistance / rayLength;
      rec' := rec.(t := t, p := r.At(t), normal := Vec3(1.0, 0.0, 0.0), frontFace := true, mat := Some(c.phaseFunction));
      hit := true;
    }
    TravelMoves(m, c, r, start, stop, rec, u, hit, rec');
  }

  /** The record `Travel` writes meets `Moves`. */
  lemma TravelMoves(m: Libm, c: ConstantMedium, r: Ray, start: real, stop: real, rec: HitRecord, u: real,
                    hit: bool, rec': HitRecord)
    requires m.Lawful() && 0.0 <= u < 1.0 && r.dir != Zero
    requires hit <==> HitDistance(m, c, u) <= (stop - start) * Length(m, r.dir)
    requires !hit ==> rec' == rec
    requires hit ==> var t := start + HitDistance(m, c, u) / Length(m, r.dir);
      rec' == rec.(t := t, p := r.At(t), normal := Vec3(1.0, 0.0, 0.0), frontFace := true, mat := Some(c.phaseFunction))
    ensures Moves(m, c, r, start, stop, rec, u, hit, rec')
  {
    var len, h := Length(m, r.dir), HitDistance(m, c, u);
    SignOfDistance(m, c, u, stop - start, len);
    if hit {
      var t := start + h / len;
      assert rec'.t == t;
      QuotientStep(start, h, len);
      SignedDistance(m, c, u, start, stop, len, t);
    }
  }

  /** A positive density samples a negative distance, which a span that
      is not negative always holds. */
  lemma SignOfDistance(m: Libm, c: ConstantMedium, u: real, span: real, len: real)
    requires m.Lawful() && len > 0.0
    ensures c.negInvDensity > 0.0 && 0.0 < u < 1.0 && span >= 0.0 ==> HitDistance(m, c, u) < span * len
  {
    if c.negInvDensity > 0.0 && 0.0 < u < 1.0 && span >= 0.0 {
      assert m.ln(u) < 0.0;
      var k := PositiveProduct(c.negInvDensity, -m.ln(u));
      var j := NonNegativeProduct(span, len);
    }
  }

  lemma QuotientStep(s: real, h: real, l: real)
    requires l != 0.0
    ensures (s + h / l) * l == s * l + h
  {
    var q := h / l;
    assert q * l == h;
    assert (s + q) * l == s * l + q * l;
  }

  /** The sign of the sampled distance places the hit: before the start for
      a negative distance, between start and stop for one that is not
      negative and fits. */
  lemma SignedDistance(m: Libm, c: ConstantMedium, u: real, start: real, stop: real, len: real, t: real)
    requires m.Lawful() && 0.0 <= u < 1.0 && len > 0.0
    requires t * len == start * len + HitDistance(m, c, u)
    requires HitDistance(m, c, u) <= (stop - start) * len
    ensures c.negInvDensity > 0.0 && 0.0 < u ==> t < start
    ensures c.negInvDensity <= 0.0 && 0.0 < u ==> start <= t <= stop
  {
    var h := HitDistance(m, c, u);
    if 0.0 < u {
      assert m.ln(u) < 0.0;
      if c.negInvDensity > 0.0 {
        var k := PositiveProduct(c.negInvDensity, -m.ln(u));
        assert (t - start) * len == h;
        if t >= start {
          var j := NonNegativeProduct(t - start, len);
        }
      } else {
        var k := NonNegativeProduct(-c.negInvDensity, -m.ln(u));
        assert (t - start) * len == h;
        if t < start {
          var j := PositiveProduct(start - t, len);
        }
        if t > stop {
          var j := PositiveProduct(t - stop, len);
        }
      }
    }
  }

  /** `bounding_box`: the boundary's box. */
  function MediumBoundingBox(c: ConstantMedium): (b: Bounds)
    ensures b == c.boundary.bbox
  {
    c.boundary.bbox
  }
}
