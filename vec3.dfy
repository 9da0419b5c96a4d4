/** Three-component vectors of reals: points, directions and colours
    (src/vec3.rs). The source stores the components in an array `e`; here
    they are the fields `x`, `y`, `z`, which are also the accessors `x()`,
    `y()`, `z()`, and `At(i)` is `Index`. */
module Vectors {
  import opened Floats

  datatype Vec3 = Vec3(x: real, y: real, z: real)
  {
    /** `Index<usize>`: component `i`. */
    function At(i: nat): (r: real)
      requires i < 3
      ensures i == 0 ==> r == x
      ensures i == 1 ==> r == y
      ensures i == 2 ==> r == z
    {
      if i == 0 then x else if i == 1 then y else z
    }

    /** `IndexMut<usize>` followed by a store: the vector with component `i`
        replaced by `c` and the other two kept. */
    function With(i: nat, c: real): (r: Vec3)
      requires i < 3
      ensures r.At(i) == c
      ensures forall k :: 0 <= k < 3 && k != i ==> r.At(k) == At(k)
    {
      if i == 0 then Vec3(c, y, z) else if i == 1 then Vec3(x, c, z) else Vec3(x, y, c)
    }
  }

  /** `Vec3::new_empty()`. */
  const Zero := Vec3(0.0, 0.0, 0.0)

  /** Two vectors are equal exactly when their three components are. */
  lemma {:induction false} ExtensionalAt(a: Vec3, b: Vec3)
    requires forall i :: 0 <= i < 3 ==> a.At(i) == b.At(i)
    ensures a == b
  {
    assert a.At(0) == b.At(0) && a.At(1) == b.At(1) && a.At(2) == b.At(2);
  }

  function Neg(v: Vec3): (r: Vec3)
    ensures forall i :: 0 <= i < 3 ==> r.At(i) == -v.At(i)
  {
    Vec3(-v.x, -v.y, -v.z)
  }

  function Add(a: Vec3, b: Vec3): (r: Vec3)
    ensures forall i :: 0 <= i < 3 ==> r.At(i) == a.At(i) + b.At(i)
  {
    Vec3(a.x + b.x, a.y + b.y, a.z + b.z)
  }

  function Sub(a: Vec3, b: Vec3): (r: Vec3)
    ensures forall i :: 0 <= i < 3 ==> r.At(i) == a.At(i) - b.At(i)
  {
    Vec3(a.x - b.x, a.y - b.y, a.z - b.z)
  }

  /** `Mul<Vec3> for Vec3`: the componentwise (Hadamard) product. */
  function Mul(a: Vec3, b: Vec3): (r: Vec3)
    ensures forall i :: 0 <= i < 3 ==> r.At(i) == a.At(i) * b.At(i)
  {
    Vec3(a.x * b.x, a.y * b.y, a.z * b.z)
  }

  /** `Mul<f64> for Vec3` and `Mul<Vec3> for f64`, which agree. */
  function Scale(t: real, v: Vec3): (r: Vec3)
    ensures forall i :: 0 <= i < 3 ==> r.At(i) == t * v.At(i)
  {
    Vec3(t * v.x, t * v.y, t * v.z)
  }

  /** `Div<f64> for Vec3`. Division by zero (an IEEE infinity) is not modelled. */
  function Div(v: Vec3, t: real): (r: Vec3)
    requires t != 0.0
    ensures forall i :: 0 <= i < 3 ==> r.At(i) * t == v.At(i)
  {
    Vec3(v.x / t, v.y / t, v.z / t)
  }

  /** `Div<Vec3> for f64`: `t` divided by each component. */
  function DivBy(t: real, v: Vec3): (r: Vec3)
    requires v.x != 0.0 && v.y != 0.0 && v.z != 0.0
    ensures forall i :: 0 <= i < 3 ==> r.At(i) * v.At(i) == t
  {
    Vec3(t / v.x, t / v.y, t / v.z)
  }

  /** `AddAssign`: the three components of `v` are updated one at a time. */
  method AddAssign(v: Vec3, rhs: Vec3) returns (v': Vec3)
    ensures v' == Add(v, rhs)
    ensures Sub(v', rhs) == v
  {
    v' := v;
    v' := v'.With(0, v'.At(0) + rhs.At(0));
    v' := v'.With(1, v'.At(1) + rhs.At(1));
    v' := v'.With(2, v'.At(2) + rhs.At(2));
  }

  function Dot(u: Vec3, v: Vec3): (r: real)
  {
    u.x * v.x + u.y * v.y + u.z * v.z
  }

  lemma DotSymmetric(u: Vec3, v: Vec3)
    ensures Dot(u, v) == Dot(v, u)
  {
  }

  function LengthSquared(v: Vec3): (r: real)
    ensures r >= 0.0
    ensures r == Dot(v, v)
  {
    v.x * v.x + v.y * v.y + v.z * v.z
  }

  /** Only the zero vector has length zero. */
  lemma LengthSquaredPositive(v: Vec3)
    requires v != Zero
    ensures LengthSquared(v) > 0.0
  {
    var a := Square(v.x);
    var b := Square(v.y);
    var c := Square(v.z);
  }

  /** `length`: the square root of `length_squared`; it is zero only for
      the zero vector. */
  function Length(m: Libm, v: Vec3): (r: real)
    requires m.Lawful()
    ensures r >= 0.0
    ensures v != Zero ==> r > 0.0
  {
    SqrtOfLengthSquared(m, v);
    m.sqrt(LengthSquared(v))
  }

  /** The length squared is `length_squared`. */
  lemma LengthSquaredIsSquare(m: Libm, v: Vec3)
    requires m.Lawful()
    ensures Length(m, v) * Length(m, v) == LengthSquared(v)
  {
    SqrtOfLengthSquared(m, v);
  }

  lemma SqrtOfLengthSquared(m: Libm, v: Vec3)
    requires m.Lawful()
    ensures m.sqrt(LengthSquared(v)) >= 0.0
    ensures m.sqrt(LengthSquared(v)) * m.sqrt(LengthSquared(v)) == LengthSquared(v)
    ensures v != Zero ==> m.sqrt(LengthSquared(v)) > 0.0
  {
    var x := LengthSquared(v);
    assert m.sqrt(x) * m.sqrt(x) == x;
    if v != Zero {
      LengthSquaredPositive(v);
      SqrtPositive(m, x);
    }
  }

  function Cross(u: Vec3, v: Vec3): Vec3
  {
    Vec3(u.y * v.z - u.z * v.y,
         u.z * v.x - u.x * v.z,
         u.x * v.y - u.y * v.x)
  }

  /** The cross product is orthogonal to both factors. */
  lemma CrossOrthogonal(u: Vec3, v: Vec3)
    ensures Dot(u, Cross(u, v)) == 0.0 && Dot(v, Cross(u, v)) == 0.0
  {
  }

  /** `near_zero`: every component is smaller than `f64::EPSILON` in size. */
  function NearZero(v: Vec3): (r: bool)
    ensures r <==> forall i :: 0 <= i < 3 ==> Abs(v.At(i)) < F64Epsilon
  {
    assert v.At(0) == v.x && v.At(1) == v.y && v.At(2) == v.z;
    Abs(v.x) < F64Epsilon && Abs(v.y) < F64Epsilon && Abs(v.z) < F64Epsilon
  }

  /** `unit_vector`: `v / v.length()`. The zero vector (a NaN result) is
      excluded. */
  function UnitVector(m: Libm, v: Vec3): (r: Vec3)
    requires m.Lawful() && v != Zero
    ensures Scale(Length(m, v), r) == v
  {
    var l := Length(m, v);
    var r := Div(v, l);
    assert r.At(0) * l == v.x && r.At(1) * l == v.y && r.At(2) * l == v.z;
    r
  }

  /** Scaling by `k` scales the squared length by `k * k`. */
  lemma ScaleLengthSquared(k: real, v: Vec3)
    ensures LengthSquared(Scale(k, v)) == (k * k) * LengthSquared(v)
  {
  }

  /** A vector that scales by `k` to one of squared length `k * k` has
      length one. */
  lemma UnitAfterScaling(k: real, v: Vec3, q: Vec3)
    requires k != 0.0 && Scale(k, v) == q && LengthSquared(q) == k * k
    ensures LengthSquared(v) == 1.0
  {
    ScaleLengthSquared(k, v);
    var kk := Square(k);
    var l := LengthSquared(v);
    assert kk * l == kk * 1.0;
    assert kk * (l - 1.0) == 0.0;
  }

  /** `unit_vector` of a non-zero vector has length one. */
  lemma UnitVectorIsUnit(m: Libm, v: Vec3)
    requires m.Lawful() && v != Zero
    ensures LengthSquared(UnitVector(m, v)) == 1.0
  {
    LengthSquaredIsSquare(m, v);
    UnitAfterScaling(Length(m, v), UnitVector(m, v), v);
  }

  /** A scalar factor comes out of a dot product. */
  lemma DotScale(k: real, a: Vec3, b: Vec3)
    ensures Dot(Scale(k, a), b) == k * Dot(a, b)
  {
  }

  /** `unit_vector` keeps every direction orthogonal to its input
      orthogonal to it. */
  lemma UnitVectorOrthogonal(m: Libm, v: Vec3, u: Vec3)
    requires m.Lawful() && v != Zero && Dot(v, u) == 0.0
    ensures Dot(UnitVector(m, v), u) == 0.0
  {
    var l := Length(m, v);
    DotScale(l, UnitVector(m, v), u);
  }

  /** `Vec3::random_in_range(min, max)`, given the three uniform draws
      `u` (each in [0, 1)) that `rand::random` would return. */
  function RandomInRange(min: real, max: real, u: Vec3): (r: Vec3)
    requires IsDraw(u) && min < max
    ensures forall i :: 0 <= i < 3 ==> min <= r.At(i) < max
  {
    Vec3(Lerp(min, max, u.x), Lerp(min, max, u.y), Lerp(min, max, u.z))
  }

  /** One component of `random_in_range`: `min + (max - min) * u`. */
  function Lerp(min: real, max: real, u: real): (r: real)
    requires 0.0 <= u < 1.0 && min < max
    ensures min <= r < max
  {
    DrawInRange(min, max, u);
    min + (max - min) * u
  }

  lemma DrawInRange(min: real, max: real, u: real)
    requires 0.0 <= u < 1.0 && min < max
    ensures min <= min + (max - min) * u < max
  {
    var d, w := max - min, 1.0 - u;
    var k := PositiveProduct(d, w);
    var j := NonNegativeProduct(d, u);
    assert k == d - j;
  }

  predicate IsDraw(u: Vec3)
  {
    0.0 <= u.x < 1.0 && 0.0 <= u.y < 1.0 && 0.0 <= u.z < 1.0
  }

  /** `random_in_unit_sphere`: the rejection loop, run over the sequence of
      draws it would consume. The source loops until a candidate is accepted;
      when the given draws run out first the result is `None`. */
  method RandomInUnitSphere(draws: seq<Vec3>) returns (p: Option<Vec3>, used: nat)
    requires forall i :: 0 <= i < |draws| ==> IsDraw(draws[i])
    ensures p.Some? ==> used < |draws| && p.value == RandomInRange(-1.0, 1.0, draws[used])
    ensures p.Some? ==> LengthSquared(p.value) < 1.0
    ensures p.None? ==> used == |draws|
    ensures forall i :: 0 <= i < used ==> LengthSquared(RandomInRange(-1.0, 1.0, draws[i])) >= 1.0
  {
    used := 0;
    while used < |draws|
      invariant used <= |draws|
      invariant forall i :: 0 <= i < used ==> LengthSquared(RandomInRange(-1.0, 1.0, draws[i])) >= 1.0
    {
      var c := RandomInRange(-1.0, 1.0, draws[used]);
      if LengthSquared(c) < 1.0 {
        return Some(c), used;
      }
      used := used + 1;
    }
    p := None;
  }

  /** `random_on_hemisphere(normal)`, given the unit vector drawn by
      `random_unit_vector`: it is kept when it points into the hemisphere of
      `normal` and negated otherwise. */
  function RandomOnHemisphere(onUnitSphere: Vec3, normal: Vec3): (r: Vec3)
    ensures Dot(r, normal) >= 0.0
    ensures r == onUnitSphere || r == Neg(onUnitSphere)
    ensures Dot(onUnitSphere, normal) > 0.0 <==> r == onUnitSphere && Dot(r, normal) > 0.0
  {
    if Dot(onUnitSphere, normal) > 0.0 then onUnitSphere else Neg(onUnitSphere)
  }

  /** `random_unit_vector`: the accepted in-sphere point, normalised. */
  function RandomUnitVector(m: Libm, inSphere: Vec3): (r: Vec3)
    requires m.Lawful() && inSphere != Zero
    ensures Scale(Length(m, inSphere), r) == inSphere
  {
    UnitVector(m, inSphere)
  }

  datatype Option<T> = None | Some(value: T)
}
