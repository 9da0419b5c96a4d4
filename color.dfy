/** Writing a pixel (src/color.rs): the accumulated colour is cleaned of
    NaN, averaged over the samples, gamma-corrected with a square root,
    clamped to [0, 0.999] and quantised to the integers 0..255 of a PPM
    line. */
module Colors {
  import opened Floats
  import opened ExtReals
  import opened Intervals
  import Vectors

  /** A colour component as a double: a real value, or NaN. */
  datatype Sample = NaN | Num(x: real)

  /** `linear_to_gamma`: the square root, which is NaN below zero. */
  function LinearToGamma(m: Libm, c: Sample): (r: Sample)
    requires m.Lawful()
    ensures r.Num? <==> c.Num? && c.x >= 0.0
    ensures r.Num? ==> r.x >= 0.0 && r.x * r.x == c.x
  {
    match c
    case NaN => NaN
    case Num(x) => if x >= 0.0 then Num(m.sqrt(x)) else NaN
  }

  /** The intensity range `[0, 0.999]` of `write_color`. */
  const Intensity := WithValues(0.0, 0.999)

  /** `(256.0 * intensity.clamp(c)) as i32`. The clamp lets NaN through
      (both comparisons fail) and the saturating cast turns it into 0; a
      clamped value is non-negative, so the cast is the floor. */
  function Quantize(c: Sample): (q: int)
    ensures 0 <= q <= 255
    ensures c.NaN? ==> q == 0
    ensures c.Num? && c.x <= 0.0 ==> q == 0
    ensures c.Num? && 0.0 <= c.x <= 0.999 ==> q == (256.0 * c.x).Floor
    ensures c.Num? && c.x >= 0.999 ==> q == 255
  {
    match c
    case NaN => 0
    case Num(x) =>
      var k := Intensity.Clamp(x).r;
      assert 0.0 <= k <= 0.999;
      (256.0 * k).Floor
  }

  /** The first two steps of `write_color`: NaN becomes 0, then the value
      is divided by the number of samples. */
  function Average(c: Sample, samplesPerPixel: nat): (r: real)
    requires samplesPerPixel > 0
    ensures c.NaN? ==> r == 0.0
    ensures c.Num? ==> r * (samplesPerPixel as real) == c.x
  {
    var x := if c.NaN? then 0.0 else c.x;
    x * (1.0 / samplesPerPixel as real)
  }

  /** The printed value of one component. */
  function Byte(m: Libm, c: Sample, samplesPerPixel: nat): (q: int)
    requires m.Lawful() && samplesPerPixel > 0
    ensures 0 <= q <= 255
  {
    Quantize(LinearToGamma(m, Num(Average(c, samplesPerPixel))))
  }

  /** A NaN component prints as 0, like black; so does a negative one,
      whose square root is NaN. */
  lemma ByteOfDark(m: Libm, c: Sample, samplesPerPixel: nat)
    requires m.Lawful() && samplesPerPixel > 0
    requires c.NaN? || c.x <= 0.0
    ensures Byte(m, c, samplesPerPixel) == 0
  {
    var a := Average(c, samplesPerPixel);
    if c.Num? {
      AverageSign(c.x, samplesPerPixel as real, a);
    }
    if a == 0.0 {
      assert LinearToGamma(m, Num(a)) == Num(0.0);
    }
  }

  lemma AverageSign(x: real, n: real, a: real)
    requires n > 0.0 && a * n == x && x <= 0.0
    ensures a <= 0.0
  {
    if a > 0.0 {
      var k := PositiveProduct(a, n);
    }
  }

  /** Brighter components never print darker: the printed value is
      monotone in the accumulated value. */
  lemma ByteMonotone(m: Libm, x: real, y: real, samplesPerPixel: nat)
    requires m.Lawful() && samplesPerPixel > 0 && x <= y
    ensures Byte(m, Num(x), samplesPerPixel) <= Byte(m, Num(y), samplesPerPixel)
  {
    var n := samplesPerPixel as real;
    var a, b := Average(Num(x), samplesPerPixel), Average(Num(y), samplesPerPixel);
    AverageMonotone(x, y, n, a, b);
    if a < 0.0 {
      ByteOfDark(m, Num(x), samplesPerPixel);
    } else {
      SqrtMonotone(m, a, b);
      QuantizeMonotone(m.sqrt(a), m.sqrt(b));
    }
  }

  lemma AverageMonotone(x: real, y: real, n: real, a: real, b: real)
    requires n > 0.0 && a * n == x && b * n == y && x <= y
    ensures a <= b
  {
    if a > b {
      var k := PositiveProduct(a - b, n);
    }
  }

  /** Under `Lawful`, the square root is monotone on the non-negatives. */
  lemma SqrtMonotone(m: Libm, a: real, b: real)
    requires m.Lawful() && 0.0 <= a <= b
    ensures m.sqrt(a) <= m.sqrt(b)
  {
    var sa, sb := m.sqrt(a), m.sqrt(b);
    assert sa * sa == a && sb * sb == b;
    if sa > sb {
      var k := PositiveProduct(sa - sb, sa + sb);
    }
  }

  lemma QuantizeMonotone(a: real, b: real)
    requires 0.0 <= a <= b
    ensures Quantize(Num(a)) <= Quantize(Num(b))
  {
    var ka, kb := Intensity.Clamp(a).r, Intensity.Clamp(b).r;
    assert ka <= kb;
    assert 256.0 * ka <= 256.0 * kb;
  }

  /** A component averaging to at least `0.999^2` prints at full 255. */
  lemma ByteSaturates(m: Libm, x: real, samplesPerPixel: nat)
    requires m.Lawful() && samplesPerPixel > 0
    requires Average(Num(x), samplesPerPixel) >= 0.998001
    ensures Byte(m, Num(x), samplesPerPixel) == 255
  {
    var a := Average(Num(x), samplesPerPixel);
    SqrtMonotone(m, 0.998001, a);
    assert m.sqrt(0.998001) == 0.999 by {
      SquareRootOf(m, 0.999);
    }
  }

  /** The root of a square of a non-negative number is that number. */
  lemma SquareRootOf(m: Libm, s: real)
    requires m.Lawful() && s >= 0.0
    ensures m.sqrt(s * s) == s
  {
    var r := m.sqrt(s * s);
    var ss := NonNegativeProduct(s, s);
    assert r * r == s * s;
    if r > s {
      var k := PositiveProduct(r - s, r + s);
    } else if r < s {
      var k := PositiveProduct(s - r, r + s);
    }
  }

  /** The decimal digits of `n`, as `{}` formats an integer. */
  function Decimal(n: nat): (s: string)
    ensures |s| >= 1
    ensures forall i :: 0 <= i < |s| ==> '0' <= s[i] <= '9'
  {
    if n < 10 then [DigitChar(n)] else Decimal(n / 10) + [DigitChar(n % 10)]
  }

  function DigitChar(d: nat): (c: char)
    requires d < 10
    ensures '0' <= c <= '9'
  {
    "0123456789"[d]
  }

  /** Reading decimal digits back. */
  function ParseDecimal(s: string): nat
  {
    if |s| == 0 then 0
    else ParseDecimal(s[..|s| - 1]) * 10 + DigitValue(s[|s| - 1])
  }

  function DigitValue(c: char): (d: nat)
    ensures d < 10
  {
    if '0' <= c <= '9' then (c as int - '0' as int) else 0
  }

  /** Formatting a number in decimal loses nothing. */
  lemma {:induction false} DecimalRoundTrip(n: nat)
    ensures ParseDecimal(Decimal(n)) == n
  {
    var s := Decimal(n);
    if n < 10 {
      DigitRoundTrip(n);
      assert s[..|s| - 1] == [];
    } else {
      DecimalRoundTrip(n / 10);
      assert s[..|s| - 1] == Decimal(n / 10);
      assert s[|s| - 1] == DigitChar(n % 10);
      DigitRoundTrip(n % 10);
      assert n == (n / 10) * 10 + n % 10;
    }
  }

  /** A single digit reads back as itself. */
  lemma DigitRoundTrip(d: nat)
    requires d < 10
    ensures DigitValue(DigitChar(d)) == d
  {
  }

  /** The line `write!` produces: `"{} {} {}\n"`. */
  function Line(r: nat, g: nat, b: nat): (s: string)
    ensures |s| > 0 && s[|s| - 1] == '\n'
  {
    Decimal(r) + " " + Decimal(g) + " " + Decimal(b) + "\n"
  }

  /** The pieces of `s` between single spaces. */
  function Split(s: string): (fields: seq<string>)
    ensures |fields| >= 1
  {
    if |s| == 0 then [""]
    else
      var rest := Split(s[1..]);
      if s[0] == ' ' then [""] + rest else [[s[0]] + rest[0]] + rest[1..]
  }

  /** A PPM pixel line read back: three decimal fields separated by spaces
      and terminated by a newline. */
  function ParseLine(s: string): Vectors.Option<(nat, nat, nat)>
  {
    if |s| == 0 || s[|s| - 1] != '\n' then Vectors.None
    else
      var fields := Split(s[..|s| - 1]);
      if |fields| != 3 then Vectors.None
      else Vectors.Some((ParseDecimal(fields[0]), ParseDecimal(fields[1]), ParseDecimal(fields[2])))
  }


  /** A piece without spaces is split off whole. */
  lemma {:induction false} SplitField(a: string, b: string)
    requires forall i :: 0 <= i < |a| ==> a[i] != ' '
    ensures Split(a + " " + b) == [a] + Split(b)
    ensures Split(a) == [a]
  {
    if |a| == 0 {
      assert a + " " + b == [' '] + b;
      assert ([' '] + b)[1..] == b;
    } else {
      SplitField(a[1..], b);
      assert (a + " " + b)[1..] == a[1..] + " " + b;
      assert [a[0]] + a[1..] == a;
    }
  }

  /** The line holds the three values, separated by single spaces and
      followed by a newline: reading it back gives them again. */
  lemma LineRoundTrip(r: nat, g: nat, b: nat)
    ensures ParseLine(Line(r, g, b)) == Vectors.Some((r, g, b))
  {
    var s := Line(r, g, b);
    var dr, dg, db := Decimal(r), Decimal(g), Decimal(b);
    assert s[..|s| - 1] == dr + " " + (dg + " " + db);
    SplitField(dr, dg + " " + db);
    SplitField(dg, db);
    SplitField(db, "");
    DecimalRoundTrip(r);
    DecimalRoundTrip(g);
    DecimalRoundTrip(b);
  }

  /** One component of `write_color`: `NaN` replaced by 0, multiplied by
      `1 / samples_per_pixel`, gamma-corrected, then quantised. */
  method Component(m: Libm, c: Sample, samplesPerPixel: nat) returns (q: int)
    requires m.Lawful() && samplesPerPixel > 0
    ensures q == Byte(m, c, samplesPerPixel)
  {
    var x := c;
    if x.NaN? {
      x := Num(0.0);
    }
    var scale := 1.0 / samplesPerPixel as real;
    x := Num(x.x * scale);
    assert x == Num(Average(c, samplesPerPixel));
    x := LinearToGamma(m, x);
    q := Quantize(x);
  }

  /** `write_color`: each component is cleaned, averaged, gamma-corrected
      and quantised, and the three are written as one line. */
  method WriteColor(m: Libm, red: Sample, green: Sample, blue: Sample, samplesPerPixel: nat)
    returns (line: string)
    requires m.Lawful() && samplesPerPixel > 0
    ensures line == Line(Byte(m, red, samplesPerPixel), Byte(m, green, samplesPerPixel), Byte(m, blue, samplesPerPixel))
    ensures ParseLine(line) == Vectors.Some((Byte(m, red, samplesPerPixel), Byte(m, green, samplesPerPixel), Byte(m, blue, samplesPerPixel)))
  {
    var r := Component(m, red, samplesPerPixel);
    var g := Component(m, green, samplesPerPixel);
    var b := Component(m, blue, samplesPerPixel);
    line := Line(r, g, b);
    LineRoundTrip(r, g, b);
  }
}
