/** Perlin noise (src/perlin.rs): a table of 256 random unit gradients and
    three index tables. `noise` hashes the lattice cell of a point through
    the index tables with `& 255` and `^`, fetches the gradients at the
    cell's eight corners and blends them with the smoothing weight
    `t^2 (3 - 2t)`; `turb` sums octaves of it. The index tables are the
    identity: `new` fills them with `i` and throws away the shuffled tables
    `perlin_generate_perm` returns, and `permute` never swaps anyway. */
module Perlins {
  import opened Floats
  import opened Vectors
  import opened Utils

  /** `Perlin::POINT_COUNT`. */
  const PointCount: nat := 256

  function Pow2(k: nat): (r: nat)
    ensures r >= 1
  {
    if k == 0 then 1 else 2 * Pow2(k - 1)
  }

  /** Bitwise `&` on unsigned integers, bit by bit from the lowest. */
  function And(a: nat, b: nat): nat
  {
    if a == 0 || b == 0 then 0
    else 2 * And(a / 2, b / 2) + (if a % 2 == 1 && b % 2 == 1 then 1 else 0)
  }

  /** Bitwise `^` on unsigned integers, bit by bit from the lowest. */
  function Xor(a: nat, b: nat): nat
    decreases a + b
  {
    if a == 0 && b == 0 then 0
    else 2 * Xor(a / 2, b / 2) + (a % 2 + b % 2) % 2
  }

  /** Euclidean division has one quotient and one remainder. */
  lemma ModUnique(x: int, d: int, q: int, r: int)
    requires d > 0 && 0 <= r < d && x == d * q + r
    ensures x % d == r
  {
    var q0, r0 := x / d, x % d;
    assert d * (q - q0) == r0 - r;
    if q > q0 {
      MulAtLeast(d, q - q0);
    } else if q < q0 {
      MulAtLeast(d, q0 - q);
    }
  }

  lemma {:induction false} MulAtLeast(d: int, k: int)
    requires d > 0 && k >= 1
    ensures d * k >= d
  {
    if k > 1 {
      MulAtLeast(d, k - 1);
      assert d * k == d * (k - 1) + d;
    }
  }

  /** Masking with `2^k - 1` keeps the low `k` bits: it is the remainder
      modulo `2^k`. */
  lemma {:induction false} AndLowBits(x: nat, k: nat)
    ensures And(x, Pow2(k) - 1) == x % Pow2(k)
  {
    if k > 0 && x > 0 {
      var m := Pow2(k - 1);
      var b := Pow2(k) - 1;
      assert b == 2 * m - 1;
      assert b / 2 == m - 1 && b % 2 == 1;
      var a := And(x / 2, m - 1);
      assert And(x, b) == 2 * a + x % 2;
      AndLowBits(x / 2, k - 1);
      assert a == (x / 2) % m;
      LowBitsStep(x, m);
      assert 2 * a + x % 2 == x % (2 * m);
      assert Pow2(k) == 2 * m;
    } else if k == 0 {
      ModUnique(x, 1, x, 0);
    } else {
      ModUnique(0, Pow2(k), 0, 0);
    }
  }

  /** Dropping the lowest bit, keeping `k - 1` bits and putting the bit
      back keeps `k` bits. */
  lemma LowBitsStep(x: nat, m: nat)
    requires m >= 1
    ensures 2 * ((x / 2) % m) + x % 2 == x % (2 * m)
  {
    var h := x / 2;
    var q, low := h / m, h % m;
    assert h == m * q + low;
    assert x == 2 * h + x % 2;
    assert x == (2 * m) * q + (2 * low + x % 2);
    ModUnique(x, 2 * m, q, 2 * low + x % 2);
  }

  /** `& 255` is the remainder modulo 256, so it lies in [0, 255]. */
  lemma Mask255(x: nat)
    ensures And(x, 255) == Wrap(x)
  {
    assert Pow2(8) == 256;
    AndLowBits(x, 8);
  }

  /** `^` of two `k`-bit numbers is a `k`-bit number. */
  lemma {:induction false} XorBound(a: nat, b: nat, k: nat)
    requires a < Pow2(k) && b < Pow2(k)
    ensures Xor(a, b) < Pow2(k)
  {
    if k > 0 && (a > 0 || b > 0) {
      XorBound(a / 2, b / 2, k - 1);
    }
  }

  /** The masked index `x & 255` of `noise`, as the remainder modulo 256
      that `Mask255` shows it to be. */
  function Wrap(x: nat): (r: nat)
    ensures r < PointCount
  {
    x % 256
  }

  /** The gradient hash `a ^ b ^ c` of three table entries below 256 is
      below `POINT_COUNT`, so the `ranvec` lookup is in bounds. */
  function Hash(a: nat, b: nat, c: nat): (r: nat)
    requires a < PointCount && b < PointCount && c < PointCount
    ensures r < PointCount
  {
    assert Pow2(8) == 256;
    XorBound(a, b, 8);
    XorBound(Xor(a, b), c, 8);
    Xor(Xor(a, b), c)
  }

  /** `x as usize`: truncation, with negative values (and NaN) going to 0 and
      values past the range to `usize::MAX`. */
  function CastUsize(x: real): nat
  {
    if x < 0.0 then 0
    else if x >= 18446744073709551616.0 then 18446744073709551615
    else x.Floor
  }

  /** The lattice coordinate `(4 x) as usize & 255`. */
  function GridIndex(x: real): (i: nat)
    ensures i < PointCount
  {
    Wrap(CastUsize(4.0 * x))
  }

  /** `x - floor(x)`, the position inside the unit cell. */
  function Frac(x: real): (r: real)
    ensures 0.0 <= r < 1.0
  {
    x - x.Floor as real
  }

  /** The smoothing weight `t^2 (3 - 2t)`. */
  function Fade(t: real): real
  {
    t * t * (3.0 - 2.0 * t)
  }

  /** The smoothing weight of a position in the cell is a weight: it lies
      in [0, 1]. */
  lemma FadeInRange(t: real)
    requires 0.0 <= t <= 1.0
    ensures 0.0 <= Fade(t) <= 1.0
  {
    var tt := NonNegativeProduct(t, t);
    var f := NonNegativeProduct(tt, 3.0 - 2.0 * t);
    var ss := NonNegativeProduct(1.0 - t, 1.0 - t);
    var g := NonNegativeProduct(ss, 1.0 + 2.0 * t);
    assert 1.0 - f == g;
  }

  /** A `Perlin` value: its gradient table and its three index tables,
      which are never written after `new`. */
  datatype Perlin = Perlin(ranvec: seq<Vec3>, permX: seq<nat>, permY: seq<nat>, permZ: seq<nat>)

  /** `POINT_COUNT` gradients and index tables whose entries index them. */
  predicate WellFormed(t: Perlin)
  {
    |t.ranvec| == PointCount && Indices(t.permX) && Indices(t.permY) && Indices(t.permZ)
  }

  /** An index table: 256 entries, each an index into the gradients. */
  predicate Indices(s: seq<nat>)
  {
    |s| == PointCount && forall i :: 0 <= i < PointCount ==> s[i] < PointCount
  }

  /** The gradient at corner `(di, dj, dk)` of the cell `(i, j, k)`. */
  function Corner(t: Perlin, i: nat, j: nat, k: nat, di: nat, dj: nat, dk: nat): Vec3
    requires WellFormed(t)
  {
    t.ranvec[Hash(t.permX[Wrap(i + di)], t.permY[Wrap(j + dj)], t.permZ[Wrap(k + dk)])]
  }

  /** The eight corners, in the order `c[di][dj][dk]` is filled: corner
      `(di, dj, dk)` at position `4 di + 2 dj + dk`. */
  function CellCorners(t: Perlin, i: nat, j: nat, k: nat): (cs: seq<Vec3>)
    requires WellFormed(t)
    ensures |cs| == 8
  {
    seq(8, n requires 0 <= n < 8 => Corner(t, i, j, k, n / 4, (n / 2) % 2, n % 2))
  }

  /** One term of `perlin_interpolation`: the blending weight of corner
      `(i, j, k)` times the dot product of its gradient `g` with the offset
      from the corner. */
  function Term(g: Vec3, u: real, v: real, w: real, i: nat, j: nat, k: nat): real
    requires i < 2 && j < 2 && k < 2
  {
    var fi, fj, fk := i as real, j as real, k as real;
    Blend(i, Fade(u)) * Blend(j, Fade(v)) * Blend(k, Fade(w)) * Dot(g, Vec3(u - fi, v - fj, w - fk))
  }

  /** The weight `i t + (1 - i) (1 - t)` of the corner side `i` along one
      axis, for the sides 0 and 1 that the loops visit. */
  function Blend(i: nat, t: real): (r: real)
    requires i < 2
    ensures r == (i as real) * t + (1.0 - i as real) * (1.0 - t)
  {
    if i == 1 then t else 1.0 - t
  }

  /** The first `n` terms of the innermost loop, over the corners
      `(i, j, 0)`, ..., `(i, j, n - 1)`; corner `(i, j, k)` is
      `cs[4 i + 2 j + k]`. */
  function RowSum(cs: seq<Vec3>, u: real, v: real, w: real, i: nat, j: nat, n: nat): real
    requires |cs| == 8 && i < 2 && j < 2 && n <= 2
  {
    if n == 0 then 0.0
    else RowSum(cs, u, v, w, i, j, n - 1) + Term(cs[4 * i + 2 * j + n - 1], u, v, w, i, j, n - 1)
  }

  /** The first `n` rows of the middle loop. */
  function PlaneSum(cs: seq<Vec3>, u: real, v: real, w: real, i: nat, n: nat): real
    requires |cs| == 8 && i < 2 && n <= 2
  {
    if n == 0 then 0.0 else PlaneSum(cs, u, v, w, i, n - 1) + RowSum(cs, u, v, w, i, n - 1, 2)
  }

  /** The first `n` planes of the outer loop. */
  function CellSum(cs: seq<Vec3>, u: real, v: real, w: real, n: nat): real
    requires |cs| == 8 && n <= 2
  {
    if n == 0 then 0.0 else CellSum(cs, u, v, w, n - 1) + PlaneSum(cs, u, v, w, n - 1, 2)
  }

  /** `perlin_interpolation(c, u, v, w)` over the corners `cs`. */
  function Interpolation(cs: seq<Vec3>, u: real, v: real, w: real): real
    requires |cs| == 8
  {
    CellSum(cs, u, v, w, |cs| / 4)
  }

  /** At a lattice point the noise is zero: only the corner itself has a
      weight, and its offset is the zero vector. */
  lemma InterpolationAtCorner(cs: seq<Vec3>)
    requires |cs| == 8
    ensures Interpolation(cs, 0.0, 0.0, 0.0) == 0.0
  {
    PlaneAtCorner(cs, 0);
    assert CellSum(cs, 0.0, 0.0, 0.0, 1) == 0.0;
    PlaneAtCorner(cs, 1);
  }

  lemma PlaneAtCorner(cs: seq<Vec3>, i: nat)
    requires |cs| == 8 && i < 2
    ensures PlaneSum(cs, 0.0, 0.0, 0.0, i, 2) == 0.0
  {
    RowAtCorner(cs, i, 0);
    assert PlaneSum(cs, 0.0, 0.0, 0.0, i, 1) == 0.0;
    RowAtCorner(cs, i, 1);
  }

  lemma RowAtCorner(cs: seq<Vec3>, i: nat, j: nat)
    requires |cs| == 8 && i < 2 && j < 2
    ensures RowSum(cs, 0.0, 0.0, 0.0, i, j, 2) == 0.0
  {
    TermAtCorner(cs[4 * i + 2 * j], i, j, 0);
    assert RowSum(cs, 0.0, 0.0, 0.0, i, j, 1) == 0.0;
    TermAtCorner(cs[4 * i + 2 * j + 1], i, j, 1);
  }

  lemma TermAtCorner(g: Vec3, i: nat, j: nat, k: nat)
    requires i < 2 && j < 2 && k < 2
    ensures Term(g, 0.0, 0.0, 0.0, i, j, k) == 0.0
  {
    assert Fade(0.0) == 0.0;
  }

  /** `noise(p)` over the tables `t`. */
  function NoiseOf(t: Perlin, p: Vec3): real
    requires WellFormed(t)
  {
    Interpolation(CellCorners(t, GridIndex(p.x), GridIndex(p.y), GridIndex(p.z)), Frac(p.x), Frac(p.y), Frac(p.z))
  }

  /** The noise vanishes at points with integer coordinates. */
  lemma NoiseAtLattice(t: Perlin, p: Vec3)
    requires WellFormed(t) && IsLattice(p)
    ensures NoiseOf(t, p) == 0.0
  {
    InterpolationAtCorner(CellCorners(t, GridIndex(p.x), GridIndex(p.y), GridIndex(p.z)));
  }

  /** A point with integer coordinates. */
  predicate IsLattice(p: Vec3)
  {
    p.x == p.x.Floor as real && p.y == p.y.Floor as real && p.z == p.z.Floor as real
  }

  /** The weight `0.5^n` of octave `n`. */
  function Weight(n: nat): (r: real)
    ensures r > 0.0
  {
    if n == 0 then 1.0 else Weight(n - 1) * 0.5
  }

  /** The point `2^n p` of octave `n`. */
  function Octave(p: Vec3, n: nat): Vec3
  {
    if n == 0 then p else Scale(2.0, Octave(p, n - 1))
  }

  /** The noise over the tables `t`, as a function of the point. */
  function NoiseField(t: Perlin): Vec3 -> real
    requires WellFormed(t)
  {
    q => NoiseOf(t, q)
  }

  /** The sum of the first `n` octaves of `turb`, for the noise `noise`. */
  function Accumulated(noise: Vec3 -> real, p: Vec3, n: nat): real
  {
    if n == 0 then 0.0 else Accumulated(noise, p, n - 1) + Weight(n - 1) * noise(Octave(p, n - 1))
  }

  /** One more octave of the sum. */
  lemma AccumulatedStep(noise: Vec3 -> real, p: Vec3, n: nat, accum: real, weight: real, value: real)
    requires accum == Accumulated(noise, p, n) && weight == Weight(n) && value == noise(Octave(p, n))
    ensures accum + weight * value == Accumulated(noise, p, n + 1)
  {
  }

  /** `turb(p, depth)`: the absolute value of the octave sum. */
  function TurbOf(t: Perlin, p: Vec3, depth: nat): (r: real)
    requires WellFormed(t)
    ensures r >= 0.0
    ensures depth == 0 ==> r == 0.0
    ensures r == Accumulated(NoiseField(t), p, depth) || r == -Accumulated(NoiseField(t), p, depth)
  {
    Abs(Accumulated(NoiseField(t), p, depth))
  }

  /** Doubling keeps a lattice point on the lattice. */
  lemma {:induction false} OctaveAtLattice(p: Vec3, n: nat)
    requires IsLattice(p)
    ensures IsLattice(Octave(p, n))
  {
    if n > 0 {
      OctaveAtLattice(p, n - 1);
      var q := Octave(p, n - 1);
      DoubleInteger(q.x);
      DoubleInteger(q.y);
      DoubleInteger(q.z);
    }
  }

  lemma DoubleInteger(x: real)
    requires x == x.Floor as real
    ensures 2.0 * x == (2.0 * x).Floor as real
  {
    assert 2.0 * x == (2 * x.Floor) as real;
  }

  /** Every octave of a lattice point is a lattice point, where the noise
      is zero, so the turbulence there is zero at any depth. */
  lemma {:induction false} TurbAtLattice(t: Perlin, p: Vec3, depth: nat)
    requires WellFormed(t) && IsLattice(p)
    ensures Accumulated(NoiseField(t), p, depth) == 0.0
    ensures TurbOf(t, p, depth) == 0.0
  {
    if depth > 0 {
      TurbAtLattice(t, p, depth - 1);
      OctaveAtLattice(p, depth - 1);
      NoiseAtLattice(t, Octave(p, depth - 1));
    }
  }

  /** The identity table `[0, 1, ..., n - 1]`. */
  function Identity(n: nat): (s: seq<nat>)
    ensures |s| == n && forall i :: 0 <= i < n ==> s[i] == i
  {
    seq(n, i => i)
  }

  /** The loop `for i in start..end` of `permute`: swap entry `i` with the
      entry at `random_double_in_range(0, i) as usize`, for the draws
      `draws`. It only reorders, and an empty range leaves the table as it
      was. */
  method SwapLoop(p: seq<nat>, start: int, end: int, draws: seq<real>) returns (q: seq<nat>)
    requires start < end ==> 1 <= start && end <= |p| && |draws| >= end - start
    requires forall n :: 0 <= n < |draws| ==> 0.0 <= draws[n] < 1.0
    ensures |q| == |p| && multiset(q) == multiset(p)
    ensures end <= start ==> q == p
  {
    q := p;
    var i := start;
    while i < end
      invariant start <= i && (start < end ==> i <= end)
      invariant |q| == |p| && multiset(q) == multiset(p)
      invariant end <= start ==> q == p
      decreases end - i
    {
      var target := RandomDoubleInRange(0.0, i as real, draws[i - start]).Floor;
      var tmp := q[i];
      q := q[i := q[target]];
      q := q[target := tmp];
      i := i + 1;
    }
  }

  /** `permute(p, n)`: `p` is taken by value and the range `n - 1..0` is
      empty, so the copy it works on comes out unchanged. */
  method Permute(p: seq<nat>, n: nat) returns (q: seq<nat>)
    requires 1 <= n <= |p|
    ensures q == p
  {
    q := SwapLoop(p, n - 1, 0, []);
  }

  /** `perlin_generate_perm()`: the identity table, "permuted" in a copy. */
  method GeneratePerm() returns (p: seq<nat>)
    ensures p == Identity(PointCount)
  {
    p := [];
    var i := 0;
    while i < PointCount
      invariant 0 <= i <= PointCount && p == Identity(i)
    {
      p := p + [i];
      i := i + 1;
    }
    var _ := Permute(p, PointCount);
  }

  /** The first loop of `Perlin::new`: gradient `n` is the normalised draw
      `n`. */
  method Gradients(m: Libm, draws: seq<Vec3>) returns (rv: array<Vec3>)
    requires m.Lawful() && |draws| == PointCount
    requires forall n :: 0 <= n < |draws| ==> IsDraw(draws[n]) && RandomInRange(-1.0, 1.0, draws[n]) != Zero
    ensures fresh(rv) && rv.Length == PointCount
    ensures forall n :: 0 <= n < PointCount ==> rv[n] == UnitVector(m, RandomInRange(-1.0, 1.0, draws[n]))
  {
    rv := new Vec3[PointCount];
    for i := 0 to PointCount
      invariant forall n :: 0 <= n < i ==> rv[n] == UnitVector(m, RandomInRange(-1.0, 1.0, draws[n]))
    {
      rv[i] := UnitVector(m, RandomInRange(-1.0, 1.0, draws[i]));
    }
  }

  /** The second loop of `Perlin::new`: entry `i` of each index table is
      `i`. */
  method FillIdentity(px: array<nat>, py: array<nat>, pz: array<nat>)
    requires px.Length == PointCount && py.Length == PointCount && pz.Length == PointCount
    modifies px, py, pz
    ensures px[..] == Identity(PointCount) && py[..] == Identity(PointCount) && pz[..] == Identity(PointCount)
  {
    for i := 0 to PointCount
      invariant forall n :: 0 <= n < i ==> px[n] == n && py[n] == n && pz[n] == n
    {
      px[i] := i;
      py[i] := i;
      pz[i] := i;
    }
    assert px[..] == Identity(PointCount) && py[..] == Identity(PointCount) && pz[..] == Identity(PointCount);
  }

  /** `Perlin::new()`, given the 256 draws behind
      `Vec3::random_in_range(-1, 1)` (none of them the zero vector, whose
      normalisation is NaN). Each gradient is the normalised draw, and the
      index tables are the identity. */
  method NewPerlin(m: Libm, draws: seq<Vec3>) returns (t: Perlin)
    requires m.Lawful() && |draws| == PointCount
    requires forall n :: 0 <= n < |draws| ==> IsDraw(draws[n]) && RandomInRange(-1.0, 1.0, draws[n]) != Zero
    ensures WellFormed(t)
    ensures forall n :: 0 <= n < PointCount ==> t.ranvec[n] == UnitVector(m, RandomInRange(-1.0, 1.0, draws[n]))
    ensures t.permX == Identity(PointCount) && t.permY == Identity(PointCount) && t.permZ == Identity(PointCount)
  {
    var rv := Gradients(m, draws);
    var px := new nat[PointCount];
    var py := new nat[PointCount];
    var pz := new nat[PointCount];
    FillIdentity(px, py, pz);
    var _ := GeneratePerm();
    var _ := GeneratePerm();
    var _ := GeneratePerm();
    t := Perlin(rv[..], px[..], py[..], pz[..]);
  }

  /** `noise(p)`: the corner gradients are gathered into `c[di][dj][dk]`
      and blended by `perlin_interpolation`. */
  method Noise(t: Perlin, p: Vec3) returns (r: real)
    requires WellFormed(t)
    ensures r == NoiseOf(t, p)
  {
    var u, v, w := p.x - p.x.Floor as real, p.y - p.y.Floor as real, p.z - p.z.Floor as real;
    var i, j, k := Wrap(CastUsize(4.0 * p.x)), Wrap(CastUsize(4.0 * p.y)), Wrap(CastUsize(4.0 * p.z));
    var c := GatherCorners(t, i, j, k);
    r := PerlinInterpolation(c, u, v, w);
  }

  /** The triple loop of `noise`: `c[di][dj][dk]` is the gradient the hash
      of corner `(i + di, j + dj, k + dk)` selects. */
  method GatherCorners(t: Perlin, i: nat, j: nat, k: nat) returns (c: array3<Vec3>)
    requires WellFormed(t)
    ensures fresh(c) && c.Length0 == 2 && c.Length1 == 2 && c.Length2 == 2
    ensures Corners(c) == CellCorners(t, i, j, k)
  {
    c := new Vec3[2, 2, 2];
    for di := 0 to 2
      invariant forall a, b, e :: 0 <= a < di && 0 <= b < 2 && 0 <= e < 2 ==> c[a, b, e] == Corner(t, i, j, k, a, b, e)
    {
      for dj := 0 to 2
        invariant forall a, b, e :: 0 <= a < di && 0 <= b < 2 && 0 <= e < 2 ==> c[a, b, e] == Corner(t, i, j, k, a, b, e)
        invariant forall b, e :: 0 <= b < dj && 0 <= e < 2 ==> c[di, b, e] == Corner(t, i, j, k, di, b, e)
      {
        for dk := 0 to 2
          invariant forall a, b, e :: 0 <= a < di && 0 <= b < 2 && 0 <= e < 2 ==> c[a, b, e] == Corner(t, i, j, k, a, b, e)
          invariant forall b, e :: 0 <= b < dj && 0 <= e < 2 ==> c[di, b, e] == Corner(t, i, j, k, di, b, e)
          invariant forall e :: 0 <= e < dk ==> c[di, dj, e] == Corner(t, i, j, k, di, dj, e)
        {
          c[di, dj, dk] := t.ranvec[Hash(t.permX[Wrap(i + di)], t.permY[Wrap(j + dj)], t.permZ[Wrap(k + dk)])];
        }
      }
    }
    assert Corners(c) == CellCorners(t, i, j, k);
  }

  /** `turb(p, depth)`: octaves of the noise with halving weights at
      doubling frequencies, summed, then made non-negative. */
  method Turb(t: Perlin, p: Vec3, depth: nat) returns (r: real)
    requires WellFormed(t)
    ensures r == TurbOf(t, p, depth)
  {
    ghost var f := NoiseField(t);
    var accum := 0.0;
    var tempP := p;
    var weight := 1.0;
    for i: nat := 0 to depth
      invariant accum == Accumulated(f, p, i)
      invariant weight == Weight(i) && tempP == Octave(p, i)
    {
      var n := Noise(t, tempP);
      AccumulatedStep(f, p, i, accum, weight, n);
      accum := accum + weight * n;
      weight := weight * 0.5;
      tempP := Scale(2.0, tempP);
    }
    r := Abs(accum);
  }

  /** Position `4 i + 2 j + k` is corner `(i, j, k)`. */
  lemma CornerPosition(i: nat, j: nat, k: nat)
    requires i < 2 && j < 2 && k < 2
    ensures (4 * i + 2 * j + k) / 4 == i && ((4 * i + 2 * j + k) / 2) % 2 == j && (4 * i + 2 * j + k) % 2 == k
  {
  }

  /** The corners of a 2 x 2 x 2 array, at position `4 di + 2 dj + dk`. */
  function Corners(c: array3<Vec3>): (cs: seq<Vec3>)
    requires c.Length0 == 2 && c.Length1 == 2 && c.Length2 == 2
    reads c
    ensures |cs| == 8
  {
    seq(8, n requires 0 <= n < 8 reads c => c[n / 4, (n / 2) % 2, n % 2])
  }

  /** `perlin_interpolation(c, u, v, w)`: the triple loop adds the eight
      weighted terms in order. */
  method PerlinInterpolation(c: array3<Vec3>, u: real, v: real, w: real) returns (accum: real)
    requires c.Length0 == 2 && c.Length1 == 2 && c.Length2 == 2
    ensures accum == Interpolation(Corners(c), u, v, w)
  {
    var cs := Corners(c);
    accum := 0.0;
    for i := 0 to 2
      invariant accum == CellSum(cs, u, v, w, i)
    {
      for j := 0 to 2
        invariant accum == CellSum(cs, u, v, w, i) + PlaneSum(cs, u, v, w, i, j)
      {
        for k := 0 to 2
          invariant accum == CellSum(cs, u, v, w, i) + PlaneSum(cs, u, v, w, i, j) + RowSum(cs, u, v, w, i, j, k)
        {
          CornerPosition(i, j, k);
          assert c[i, j, k] == cs[4 * i + 2 * j + k];
          accum := accum + Term(c[i, j, k], u, v, w, i, j, k);
        }
      }
    }
  }
}
