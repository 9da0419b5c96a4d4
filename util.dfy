/** Helpers of src/util.rs: angle conversion, reflection and refraction,
    and the random directions built from given uniform draws. */
module Utils {
  import opened Floats
  import opened Vectors

  /** `degrees_to_radians`: `degrees * PI / 180`. */
  function DegreesToRadians(degrees: real): (r: real)
    ensures r * 180.0 == degrees * Pi
  {
    degrees * Pi / 180.0
  }

  /** The conversion is linear and takes a half turn to `PI`. */
  lemma DegreesToRadiansLinear(a: real, b: real, k: real)
    ensures DegreesToRadians(a + b) == DegreesToRadians(a) + DegreesToRadians(b)
    ensures DegreesToRadians(k * a) == k * DegreesToRadians(a)
    ensures DegreesToRadians(180.0) == Pi
  {
  }

  /** `random_double_in_range(min, max)`: `gen_range(min..max)` for the
      uniform draw `u` in [0, 1). */
  function RandomDoubleInRange(min: real, max: real, u: real): (r: real)
    requires 0.0 <= u < 1.0 && min < max
    ensures min <= r < max
  {
    Lerp(min, max, u)
  }

  /** `reflect(v, n)`: `v - 2 (v . n) n`. */
  function Reflect(v: Vec3, n: Vec3): (r: Vec3)
    ensures Dot(r, n) == Dot(v, n) - 2.0 * Dot(v, n) * Dot(n, n)
  {
    var d := Dot(v, n);
    DotAlongNormal(v, 2.0 * d, n);
    Sub(v, Scale(2.0 * d, n))
  }

  lemma DotAlongNormal(v: Vec3, k: real, n: Vec3)
    ensures Dot(Sub(v, Scale(k, n)), n) == Dot(v, n) - k * Dot(n, n)
  {
  }

  /** For a unit normal, reflection flips the normal component and is its
      own inverse. */
  lemma ReflectUnit(v: Vec3, n: Vec3)
    requires Dot(n, n) == 1.0
    ensures Dot(Reflect(v, n), n) == -Dot(v, n)
    ensures Reflect(Reflect(v, n), n) == v
  {
    var d := Dot(v, n);
    var r := Reflect(v, n);
    assert Dot(r, n) == -d by {
      assert Dot(r, n) == d - 2.0 * d * Dot(n, n);
    }
    ReflectBack(v, n, d, r);
  }

  lemma ReflectBack(v: Vec3, n: Vec3, d: real, r: Vec3)
    requires r == Sub(v, Scale(2.0 * d, n)) && Dot(r, n) == -d
    ensures Sub(r, Scale(2.0 * Dot(r, n), n)) == v
  {
    var rr := Sub(r, Scale(2.0 * Dot(r, n), n));
    assert 2.0 * Dot(r, n) == -2.0 * d;
    forall i | 0 <= i < 3 ensures rr.At(i) == v.At(i) {
      assert r.At(i) == v.At(i) - (2.0 * d) * n.At(i);
      assert rr.At(i) == r.At(i) - (-2.0 * d) * n.At(i);
    }
    ExtensionalAt(rr, v);
  }

  /** The cosine `refract` uses: `dot(-uv, n)` capped at 1. */
  function RefractCosine(uv: Vec3, n: Vec3): (r: real)
    ensures r <= 1.0
    ensures r == Dot(Neg(uv), n) || r == 1.0
    ensures Dot(Neg(uv), n) <= 1.0 ==> r == Dot(Neg(uv), n)
  {
    Floats.Min(Dot(Neg(uv), n), 1.0)
  }

  /** The part of the refracted ray perpendicular to `n`. */
  function RefractPerpendicular(uv: Vec3, n: Vec3, etaiOverEtat: real): Vec3
  {
    Scale(etaiOverEtat, Add(uv, Scale(RefractCosine(uv, n), n)))
  }

  /** `refract(uv, n, etai_over_etat)`: the perpendicular part plus a part
      along `-n` of length `sqrt(|1 - |perp|^2|)`. */
  function Refract(m: Libm, uv: Vec3, n: Vec3, etaiOverEtat: real): (r: Vec3)
    requires m.Lawful()
    ensures exists k :: k <= 0.0 && k * k == Abs(1.0 - LengthSquared(RefractPerpendicular(uv, n, etaiOverEtat)))
                        && Sub(r, RefractPerpendicular(uv, n, etaiOverEtat)) == Scale(k, n)
  {
    var perp := RefractPerpendicular(uv, n, etaiOverEtat);
    var k := -m.sqrt(Abs(1.0 - LengthSquared(perp)));
    var parallel := Scale(k, n);
    var r := Add(parallel, perp);
    assert Sub(r, perp) == parallel by {
      ExtensionalAt(Sub(r, perp), parallel);
    }
    r
  }

  /** For a unit normal, an uncapped cosine and a perpendicular part no
      longer than 1, the refracted direction is a unit vector: the
      perpendicular part is orthogonal to `n`, and the parallel part makes
      up the rest of the length. */
  lemma {:induction false} RefractIsUnit(m: Libm, uv: Vec3, n: Vec3, etaiOverEtat: real)
    requires m.Lawful() && LengthSquared(n) == 1.0 && Dot(Neg(uv), n) <= 1.0
    requires LengthSquared(RefractPerpendicular(uv, n, etaiOverEtat)) <= 1.0
    ensures Dot(RefractPerpendicular(uv, n, etaiOverEtat), n) == 0.0
    ensures LengthSquared(Refract(m, uv, n, etaiOverEtat)) == 1.0
  {
    var perp := RefractPerpendicular(uv, n, etaiOverEtat);
    PerpendicularPart(uv, n, etaiOverEtat);
    var k := -m.sqrt(Abs(1.0 - LengthSquared(perp)));
    assert k * k == 1.0 - LengthSquared(perp);
    var r := Refract(m, uv, n, etaiOverEtat);
    assert r == Add(Scale(k, n), perp);
    SumLengthSquared(k, n, perp);
  }

  /** For a unit normal and an uncapped cosine, the perpendicular part of
      the refracted ray is orthogonal to `n`. */
  lemma PerpendicularPart(uv: Vec3, n: Vec3, etaiOverEtat: real)
    requires LengthSquared(n) == 1.0 && Dot(Neg(uv), n) <= 1.0
    ensures Dot(RefractPerpendicular(uv, n, etaiOverEtat), n) == 0.0
  {
    var c := RefractCosine(uv, n);
    assert c == -Dot(uv, n);
    var inner := Add(uv, Scale(c, n));
    assert Dot(inner, n) == Dot(uv, n) + c * LengthSquared(n) by {
      DotScale(c, n, n);
    }
    DotScale(etaiOverEtat, inner, n);
  }

  /** The squared length of `k n + p` for a unit `n` orthogonal to `p`. */
  lemma SumLengthSquared(k: real, n: Vec3, p: Vec3)
    requires LengthSquared(n) == 1.0 && Dot(p, n) == 0.0
    ensures LengthSquared(Add(Scale(k, n), p)) == k * k + LengthSquared(p)
  {
    var s := Add(Scale(k, n), p);
    assert Dot(s, s) == Dot(Scale(k, n), Scale(k, n)) + 2.0 * k * Dot(n, p) + Dot(p, p);
    ScaleLengthSquared(k, n);
  }

  /** `random_cosine_direction` for the draws `r1` and `r2`: a unit vector
      with a non-negative z. */
  function RandomCosineDirection(m: Libm, r1: real, r2: real): (r: Vec3)
    requires m.Lawful() && 0.0 <= r1 < 1.0 && 0.0 <= r2 < 1.0
    ensures r.z >= 0.0 && r.z * r.z == 1.0 - r2
    ensures LengthSquared(r) == 1.0
  {
    var phi := 2.0 * Pi * r1;
    var q := m.sqrt(r2);
    var a, b := m.cos(phi), m.sin(phi);
    var r := Vec3(a * q, b * q, m.sqrt(1.0 - r2));
    assert q * q == r2;
    assert a * a + b * b == 1.0;
    assert m.sqrt(1.0 - r2) * m.sqrt(1.0 - r2) == 1.0 - r2;
    CosineSquares(a, b, q);
    r
  }

  lemma CosineSquares(a: real, b: real, q: real)
    requires a * a + b * b == 1.0
    ensures (a * q) * (a * q) + (b * q) * (b * q) == q * q
  {
    calc {
      (a * q) * (a * q) + (b * q) * (b * q);
      (a * a + b * b) * (q * q);
    }
  }

  /** The candidate one pass of `random_in_unit_disk` draws: all three
      components, z included, are `-1 + 2 u`. */
  function DiskCandidate(u: Vec3): (r: Vec3)
    requires IsDraw(u)
    ensures forall i :: 0 <= i < 3 ==> -1.0 <= r.At(i) < 1.0
  {
    RandomInRange(-1.0, 1.0, u)
  }

  /** `random_in_unit_disk`: its rejection loop draws and tests exactly as
      `random_in_unit_sphere` does, so it runs that loop. */
  method RandomInUnitDisk(draws: seq<Vec3>) returns (p: Option<Vec3>, used: nat)
    requires forall i :: 0 <= i < |draws| ==> IsDraw(draws[i])
    ensures p.Some? ==> used < |draws| && p.value == DiskCandidate(draws[used])
    ensures p.Some? ==> LengthSquared(p.value) < 1.0
    ensures p.None? ==> used == |draws|
    ensures forall i :: 0 <= i < used ==> LengthSquared(DiskCandidate(draws[i])) >= 1.0
  {
    p, used := RandomInUnitSphere(draws);
  }

  /** The disk is not flat: the draw `(0.5, 0.5, 0.9)` is accepted as the
      point `(0, 0, 0.8)`. */
  lemma DiskIsNotFlat()
    ensures DiskCandidate(Vec3(0.5, 0.5, 0.9)) == Vec3(0.0, 0.0, 0.8)
    ensures LengthSquared(Vec3(0.0, 0.0, 0.8)) < 1.0
  {
  }
}
