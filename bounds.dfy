/** The axis-aligned box of the `Interval` generation: one interval per
    axis. Its definition (`AABB::new`, `new_with_point`, `new_with_aabb`,
    `pad`, `AABB + Vec3`) is not part of this model's source files; it is
    modelled with the meaning its callers in src/hittable.rs,
    src/hittable_list.rs and src/quad.rs rely on. */
module Boxes {
  import opened ExtReals
  import opened Vectors
  import opened Intervals

  datatype Bounds = Bounds(x: Interval, y: Interval, z: Interval)
  {
    /** The interval of axis `n`. */
    function Axis(n: nat): (r: Interval)
      requires n < 3
      ensures n == 0 ==> r == x
      ensures n == 1 ==> r == y
      ensures n == 2 ==> r == z
    {
      if n == 0 then x else if n == 1 then y else z
    }

    /** The point lies in the closed interval of every axis. */
    predicate Holds(p: Vec3)
    {
      x.Contains(p.x) && y.Contains(p.y) && z.Contains(p.z)
    }

    /** Both bounds of every axis are finite. */
    predicate Finite()
    {
      x.min.Fin? && x.max.Fin? && y.min.Fin? && y.max.Fin? && z.min.Fin? && z.max.Fin?
    }
  }

  /** `AABB::new()`: empty on every axis. */
  const NoBounds := Bounds(Empty, Empty, Empty)

  lemma NoBoundsHoldsNothing(p: Vec3)
    ensures !NoBounds.Holds(p)
  {
    EmptyAndUniverse(p.x);
  }

  /** `AABB::new_with_point(a, b)`: on each axis the interval from the
      smaller to the larger of the two coordinates, so both points are in
      it whatever their order. */
  function WithPoints(a: Vec3, b: Vec3): (r: Bounds)
    ensures r.Finite() && r.Holds(a) && r.Holds(b)
    ensures forall p :: r.Holds(p) <==>
      (forall n :: 0 <= n < 3 ==> Floats.Min(a.At(n), b.At(n)) <= p.At(n) <= Floats.Max(a.At(n), b.At(n)))
  {
    var r := Bounds(WithValues(Floats.Min(a.x, b.x), Floats.Max(a.x, b.x)),
                    WithValues(Floats.Min(a.y, b.y), Floats.Max(a.y, b.y)),
                    WithValues(Floats.Min(a.z, b.z), Floats.Max(a.z, b.z)));
    assert forall p :: r.Holds(p) <==>
      (forall n :: 0 <= n < 3 ==> Floats.Min(a.At(n), b.At(n)) <= p.At(n) <= Floats.Max(a.At(n), b.At(n))) by {
      forall p ensures r.Holds(p) <==>
        (forall n :: 0 <= n < 3 ==> Floats.Min(a.At(n), b.At(n)) <= p.At(n) <= Floats.Max(a.At(n), b.At(n))) {
        assert p.At(0) == p.x && p.At(1) == p.y && p.At(2) == p.z;
        assert a.At(0) == a.x && a.At(1) == a.y && a.At(2) == a.z;
        assert b.At(0) == b.x && b.At(1) == b.y && b.At(2) == b.z;
      }
    }
    r
  }

  /** `AABB::new_with_aabb(a, b)`: the union on every axis. */
  function Union(a: Bounds, b: Bounds): (r: Bounds)
    ensures forall p :: a.Holds(p) || b.Holds(p) ==> r.Holds(p)
  {
    var r := Bounds(WithInterval(a.x, b.x), WithInterval(a.y, b.y), WithInterval(a.z, b.z));
    assert forall p :: a.Holds(p) || b.Holds(p) ==> r.Holds(p) by {
      forall p | a.Holds(p) || b.Holds(p) ensures r.Holds(p) {
        WithIntervalContains(a.x, b.x, p.x);
        WithIntervalContains(a.y, b.y, p.y);
        WithIntervalContains(a.z, b.z, p.z);
      }
    }
    r
  }

  /** The union does not depend on the order of its arguments. */
  lemma UnionSymmetric(a: Bounds, b: Bounds)
    ensures Union(a, b) == Union(b, a)
  {
    WithIntervalContains(a.x, b.x, 0.0);
    WithIntervalContains(a.y, b.y, 0.0);
    WithIntervalContains(a.z, b.z, 0.0);
  }

  /** The smallest width `pad` lets an axis keep. */
  const PadDelta: real := 0.0001

  /** One axis of `pad`: kept when at least `PadDelta` wide, otherwise
      expanded by `PadDelta`. */
  function PadAxis(i: Interval): (r: Interval)
    requires i.min.Fin? && i.max.Fin?
    ensures r.min.Fin? && r.max.Fin?
    ensures i.max.r - i.min.r >= PadDelta ==> r == i
    ensures i.max.r - i.min.r < PadDelta ==> r.max.r - r.min.r == i.max.r - i.min.r + PadDelta
    ensures Le(r.min, i.min) && Le(i.max, r.max)
  {
    if Le(Fin(PadDelta), i.Size()) then i else i.Expand(PadDelta)
  }

  /** `pad`: no ordered axis of a finite box stays narrower than `PadDelta`, and
      the padded box still holds every point of the original. */
  function Pad(b: Bounds): (r: Bounds)
    requires b.Finite()
    ensures r.Finite()
    ensures forall n :: 0 <= n < 3 && b.Axis(n).min.r <= b.Axis(n).max.r ==> r.Axis(n).max.r - r.Axis(n).min.r >= PadDelta
    ensures forall n :: 0 <= n < 3 && b.Axis(n).max.r - b.Axis(n).min.r >= PadDelta ==> r.Axis(n) == b.Axis(n)
    ensures forall p :: b.Holds(p) ==> r.Holds(p)
  {
    var r := Bounds(PadAxis(b.x), PadAxis(b.y), PadAxis(b.z));
    assert forall p :: b.Holds(p) ==> r.Holds(p) by {
      forall p | b.Holds(p) ensures r.Holds(p) {
        LeTransitive(r.x.min, b.x.min, Fin(p.x));
        LeTransitive(Fin(p.x), b.x.max, r.x.max);
        LeTransitive(r.y.min, b.y.min, Fin(p.y));
        LeTransitive(Fin(p.y), b.y.max, r.y.max);
        LeTransitive(r.z.min, b.z.min, Fin(p.z));
        LeTransitive(Fin(p.z), b.z.max, r.z.max);
      }
    }
    assert forall n :: 0 <= n < 3 ==> r.Axis(n) == PadAxis(b.Axis(n));
    r
  }

  /** `AABB + Vec3`: every axis shifted by the matching component, so the
      result holds exactly the shifted points. */
  function Offset(b: Bounds, offset: Vec3): (r: Bounds)
    ensures forall p :: r.Holds(Add(p, offset)) <==> b.Holds(p)
    ensures b.Finite() <==> r.Finite()
  {
    var r := Bounds(b.x.Shift(offset.x), b.y.Shift(offset.y), b.z.Shift(offset.z));
    assert forall p :: r.Holds(Add(p, offset)) <==> b.Holds(p) by {
      forall p ensures r.Holds(Add(p, offset)) <==> b.Holds(p) {
        var q := Add(p, offset);
        assert q.x == p.x + offset.x && q.y == p.y + offset.y && q.z == p.z + offset.z;
        ShiftOne(b.x, offset.x, p.x);
        ShiftOne(b.y, offset.y, p.y);
        ShiftOne(b.z, offset.z, p.z);
      }
    }
    r
  }

  lemma ShiftOne(i: Interval, d: real, x: real)
    ensures i.Shift(d).Contains(x + d) <==> i.Contains(x)
  {
    ShiftContains(i, d);
  }

  /** Shifting by the zero vector changes nothing. */
  lemma OffsetZero(b: Bounds)
    ensures Offset(b, Zero) == b
  {
  }
}
