/** Closed ranges of doubles (src/interval.rs). The bounds are extended
    reals because the empty and the universal interval are written with the
    two infinities. */
module Intervals {
  import opened ExtReals

  datatype Interval = Interval(min: ExtReal, max: ExtReal)
  {
    /** `contains`: the closed test. */
    predicate Contains(x: real)
    {
      Le(min, Fin(x)) && Le(Fin(x), max)
    }

    /** `surrounds`: the open test. */
    predicate Surrounds(x: real)
    {
      Lt(min, Fin(x)) && Lt(Fin(x), max)
    }

    /** `clamp`: `min` below the range, `max` above it, `x` otherwise. */
    function Clamp(x: real): (r: ExtReal)
      ensures Le(min, max) ==> Le(min, r) && Le(r, max)
      ensures Contains(x) ==> r == Fin(x)
      ensures Lt(Fin(x), min) ==> r == min
      ensures !Lt(Fin(x), min) && Lt(max, Fin(x)) ==> r == max
    {
      if Lt(Fin(x), min) then min
      else if Lt(max, Fin(x)) then max
      else Fin(x)
    }

    /** `size`: `max - min`. Both bounds being the same infinity would give
        NaN, the one case excluded. */
    function Size(): (r: ExtReal)
      requires !(min == max && !min.Fin?)
      ensures min.Fin? && max.Fin? ==> r == Fin(max.r - min.r)
      ensures min == PosInf || max == NegInf ==> r == NegInf
      ensures min == NegInf || max == PosInf ==> r == PosInf
    {
      match (min, max)
      case (Fin(a), Fin(b)) => Fin(b - a)
      case (PosInf, _) => NegInf
      case (_, NegInf) => NegInf
      case _ => PosInf
    }

    /** `expand(delta)`: each end moves outward by `delta / 2`. */
    function Expand(delta: real): (r: Interval)
      ensures r.min.Fin? <==> min.Fin?
      ensures r.max.Fin? <==> max.Fin?
      ensures min.Fin? ==> r.min.r == min.r - delta / 2.0
      ensures max.Fin? ==> r.max.r == max.r + delta / 2.0
    {
      var padding := delta / 2.0;
      Interval(Plus(min, -padding), Plus(max, padding))
    }

    /** `Add<f64> for Interval`: both ends move by `displacement`. */
    function Shift(displacement: real): (r: Interval)
      ensures r.min.Fin? <==> min.Fin?
      ensures r.max.Fin? <==> max.Fin?
      ensures min.Fin? ==> r.min.r == min.r + displacement
      ensures max.Fin? ==> r.max.r == max.r + displacement
    {
      Interval(Plus(min, displacement), Plus(max, displacement))
    }
  }

  /** `Interval::new()`, which equals `EMPTY`. */
  const New := Interval(PosInf, NegInf)
  const Empty := Interval(PosInf, NegInf)
  const Universe := Interval(NegInf, PosInf)

  /** `with_values`. */
  function WithValues(min: real, max: real): (r: Interval)
    ensures forall x :: r.Contains(x) <==> min <= x <= max
    ensures forall x :: r.Surrounds(x) <==> min < x < max
  {
    Interval(Fin(min), Fin(max))
  }

  /** `with_interval(a, b)`: the smallest interval holding both. */
  function WithInterval(a: Interval, b: Interval): (r: Interval)
    ensures Le(r.min, a.min) && Le(r.min, b.min) && (r.min == a.min || r.min == b.min)
    ensures Le(a.max, r.max) && Le(b.max, r.max) && (r.max == a.max || r.max == b.max)
  {
    Interval(ExtReals.Min(a.min, b.min), ExtReals.Max(a.max, b.max))
  }

  /** `Add<Interval> for f64`: `d + i` is `i + d`. */
  function ShiftLeft(displacement: real, i: Interval): (r: Interval)
    ensures forall x :: r.Contains(x + displacement) <==> i.Contains(x)
    ensures r == i.Shift(displacement)
  {
    ShiftContains(i, displacement);
    i.Shift(displacement)
  }

  /** `EMPTY` contains nothing and `UNIVERSE` everything; `new()` is `EMPTY`. */
  lemma EmptyAndUniverse(x: real)
    ensures !Empty.Contains(x) && !Empty.Surrounds(x)
    ensures Universe.Contains(x) && Universe.Surrounds(x)
    ensures New == Empty
  {
  }

  /** The open test implies the closed one. */
  lemma SurroundsImpliesContains(i: Interval, x: real)
    requires i.Surrounds(x)
    ensures i.Contains(x)
  {
  }

  /** The union holds everything either argument holds, and does not depend
      on the order of the arguments. */
  lemma WithIntervalContains(a: Interval, b: Interval, x: real)
    ensures a.Contains(x) || b.Contains(x) ==> WithInterval(a, b).Contains(x)
    ensures WithInterval(a, b) == WithInterval(b, a)
  {
    var r := WithInterval(a, b);
    if a.Contains(x) {
      LeTransitive(r.min, a.min, Fin(x));
      LeTransitive(Fin(x), a.max, r.max);
    }
    if b.Contains(x) {
      LeTransitive(r.min, b.min, Fin(x));
      LeTransitive(Fin(x), b.max, r.max);
    }
  }

  /** Expanding by `delta` makes a finite interval exactly `delta` longer. */
  lemma ExpandSize(i: Interval, delta: real)
    requires i.min.Fin? && i.max.Fin?
    ensures i.Expand(delta).Size() == Fin(i.Size().r + delta)
  {
  }

  /** Shifting keeps the size and moves membership along with the bounds. */
  lemma ShiftContains(i: Interval, d: real)
    ensures forall x :: i.Shift(d).Contains(x + d) <==> i.Contains(x)
    ensures i.min.Fin? && i.max.Fin? ==> i.Shift(d).Size() == i.Size()
  {
  }
}
