/** The floating-point constants and the part of the math library the
    renderer calls. The transcendental functions are not computed: they are
    closures handed in by the caller, and `Lawful` states the only facts the
    proofs rely on. */
module Floats {

  /** `f64::MAX` written out exactly. */
  const F64Max: real := 179769313486231570814527423731704356798070567525844996598917476803157260780028538760589558632766878171540458953514382464234321326889464182768467546703537516986049910576551282076245490090389328944075868508455133942304583236903222948165808559332123348274797826204144723168738177180919299881250404026184124858368.0

  /** `f64::MIN`, the most negative finite double. */
  const F64Min: real := -F64Max

  /** `f64::EPSILON` = 2^-52. */
  const F64Epsilon: real := 0.0000000000000002220446049250313080847263336181640625

  /** `std::f64::consts::PI`, the double nearest to pi, written out exactly. */
  const Pi: real := 3.141592653589793115997963468544185161590576171875

  function Abs(x: real): (r: real)
    ensures r >= 0.0 && (r == x || r == -x)
  {
    if x < 0.0 then -x else x
  }

  /** `f64::min` on finite values. */
  function Min(a: real, b: real): (r: real)
    ensures r <= a && r <= b && (r == a || r == b)
  {
    if a <= b then a else b
  }

  /** `f64::max` on finite values. */
  function Max(a: real, b: real): (r: real)
    ensures r >= a && r >= b && (r == a || r == b)
  {
    if a <= b then b else a
  }

  /** The transcendental functions of the standard library, uninterpreted. */
  datatype Libm = Libm(
    sqrt: real -> real,
    sin: real -> real,
    cos: real -> real,
    tan: real -> real,
    ln: real -> real,
    powf: (real, real) -> real)
  {
    /** The facts assumed of the library: the square root of a
        non-negative number is a non-negative root (and 0 at 0), while
        nothing is assumed of the root of a negative number (NaN in IEEE);
        sine and cosine lie in [-1, 1] and their squares add up to 1; and
        the logarithm is negative below 1 and 0 at 1. */
    ghost predicate Lawful()
    {
      && (forall x :: x >= 0.0 ==> sqrt(x) >= 0.0)
      && (forall x :: x >= 0.0 ==> sqrt(x) * sqrt(x) == x)
      && (forall x :: -1.0 <= sin(x) <= 1.0)
      && (forall x :: -1.0 <= cos(x) <= 1.0)
      && (forall x :: sin(x) * sin(x) + cos(x) * cos(x) == 1.0)
      && (forall x :: 0.0 < x < 1.0 ==> ln(x) < 0.0)
      && sqrt(0.0) == 0.0
      && ln(1.0) == 0.0
    }
  }

  /** Under `Lawful`, the root of a positive number is positive. */
  lemma SqrtPositive(m: Libm, x: real)
    requires m.Lawful() && x > 0.0
    ensures m.sqrt(x) > 0.0
  {
    assert m.sqrt(x) * m.sqrt(x) == x;
  }

  /** Real products are named by these lemmas' results: the solver keeps the
      link between a product and its sign more reliably through a variable. */
  lemma PositiveProduct(a: real, b: real) returns (k: real)
    requires a > 0.0 && b > 0.0
    ensures k == a * b && k > 0.0
  {
    k := a * b;
  }

  lemma NonNegativeProduct(a: real, b: real) returns (k: real)
    requires a >= 0.0 && b >= 0.0
    ensures k == a * b && k >= 0.0
  {
    k := a * b;
    if a > 0.0 && b > 0.0 { k := PositiveProduct(a, b); }
  }

  lemma Square(a: real) returns (k: real)
    ensures k == a * a && k >= 0.0
    ensures a != 0.0 ==> k > 0.0
  {
    if a > 0.0 { k := PositiveProduct(a, a); }
    else if a < 0.0 { k := PositiveProduct(-a, -a); }
    else { k := a * a; }
  }
}
