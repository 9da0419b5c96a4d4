/** IEEE-754 doubles restricted to their ordered part: every finite value is
    a real, and the two infinities are kept because the interval code relies
    on them (EMPTY and UNIVERSE). NaN is not modelled. */
module ExtReals {

  datatype ExtReal = NegInf | Fin(r: real) | PosInf

  /** The order of the extended reals. */
  predicate Le(a: ExtReal, b: ExtReal)
  {
    a == NegInf || b == PosInf || (a.Fin? && b.Fin? && a.r <= b.r)
  }

  predicate Lt(a: ExtReal, b: ExtReal)
  {
    Le(a, b) && a != b
  }

  /** `f64::min` on ordered values. */
  function Min(a: ExtReal, b: ExtReal): (r: ExtReal)
    ensures Le(r, a) && Le(r, b)
    ensures r == a || r == b
  {
    if Le(a, b) then a else b
  }

  /** `f64::max` on ordered values. */
  function Max(a: ExtReal, b: ExtReal): (r: ExtReal)
    ensures Le(a, r) && Le(b, r)
    ensures r == a || r == b
  {
    if Le(a, b) then b else a
  }

  /** `x + d` for a finite `d`: infinities absorb the shift. */
  function Plus(a: ExtReal, d: real): (r: ExtReal)
    ensures a.Fin? <==> r.Fin?
    ensures a.Fin? ==> r.r - a.r == d
    ensures !a.Fin? ==> r == a
  {
    match a
    case Fin(x) => Fin(x + d)
    case _ => a
  }

  lemma LeTransitive(a: ExtReal, b: ExtReal, c: ExtReal)
    requires Le(a, b) && Le(b, c)
    ensures Le(a, c)
  {
  }

  lemma LeTotal(a: ExtReal, b: ExtReal)
    ensures Le(a, b) || Le(b, a)
  {
  }
}
