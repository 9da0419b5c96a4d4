/** Parallelograms of the `Interval` generation (src/quad.rs): the corner
    `q` and the two edges `u` and `v`, with the plane data `new` derives
    from them. */
module Quads {
  import opened Floats
  import opened ExtReals
  import opened Vectors
  import opened Rays
  import opened Intervals
  import opened Boxes
  import opened Scene
  import opened HittableLists

  datatype Quad = Quad(q: Vec3, u: Vec3, v: Vec3, mat: Material, bbox: Bounds,
                       normal: Vec3, d: real, w: Vec3, area: real)

  /** The corner opposite `q`. */
  function FarCorner(q: Vec3, u: Vec3, v: Vec3): Vec3
  {
    Add(Add(q, u), v)
  }

  /** `Quad::new`: with `n = cross(u, v)`, the normal is `n` normalised,
      `d` puts `q` on the plane `dot(normal, x) = d`, `w` is `n / dot(n, n)`
      and the area is the length of `n`; the box spans `q` and the far
      corner, padded. A zero cross product (parallel edges, where the
      source divides by zero) is excluded. */
  function NewQuad(m: Libm, q: Vec3, u: Vec3, v: Vec3, mat: Material): (r: Quad)
    requires m.Lawful() && Cross(u, v) != Zero
    ensures r.q == q && r.u == u && r.v == v && r.mat == mat
    ensures LengthSquared(r.normal) == 1.0 && Scale(r.area, r.normal) == Cross(u, v)
    ensures Dot(r.normal, u) == 0.0 && Dot(r.normal, v) == 0.0
    ensures r.area > 0.0 && r.area * r.area == LengthSquared(Cross(u, v))
    ensures r.d == Dot(r.normal, q)
    ensures Dot(r.w, Cross(u, v)) == 1.0 && Scale(Dot(Cross(u, v), Cross(u, v)), r.w) == Cross(u, v)
    ensures r.bbox == Pad(WithPoints(q, FarCorner(q, u, v)))
    ensures r.bbox.Holds(q) && r.bbox.Holds(FarCorner(q, u, v))
  {
    var n := Cross(u, v);
    var normal := UnitVector(m, n);
    UnitVectorIsUnit(m, n);
    DotSymmetric(n, u);
    DotSymmetric(n, v);
    UnitVectorOrthogonal(m, n, u);
    UnitVectorOrthogonal(m, n, v);
    var d := Dot(normal, q);
    LengthSquaredPositive(n);
    var nn := Dot(n, n);
    var w := Div(n, nn);
    ScaleOfDiv(n, nn);
    WeightAgainstNormal(n);
    var area := Length(m, n);
    LengthSquaredIsSquare(m, n);
    var bbox := Pad(WithPoints(q, FarCorner(q, u, v)));
    Quad(q, u, v, mat, bbox, normal, d, w, area)
  }

  /** Dividing by `t` and scaling by `t` cancel. */
  lemma ScaleOfDiv(a: Vec3, t: real)
    requires t != 0.0
    ensures Scale(t, Div(a, t)) == a
  {
    ExtensionalAt(Scale(t, Div(a, t)), a);
  }

  /** `dot(n / dot(n, n), n) = 1` for a non-zero `n`. */
  lemma WeightAgainstNormal(n: Vec3)
    requires n != Zero
    ensures Dot(n, n) != 0.0 && Dot(Div(n, Dot(n, n)), n) == 1.0
  {
    LengthSquaredPositive(n);
    var k := Dot(n, n);
    DotOfDiv(n, k, n);
    UnitFactor(Dot(Div(n, k), n), k, Dot(n, n));
  }

  lemma UnitFactor(x: real, k: real, j: real)
    requires k != 0.0 && x * k == j && j == k
    ensures x == 1.0
  {
    assert (x - 1.0) * k == 0.0;
  }

  /** The divisor comes out of a dot product. */
  lemma DotOfDiv(a: Vec3, t: real, b: Vec3)
    requires t != 0.0
    ensures Dot(Div(a, t), b) * t == Dot(a, b)
  {
    ScaleOfDiv(a, t);
    DotScale(t, Div(a, t), b);
  }

  /** `Quad::is_interior(a, b, rec)`: false exactly when `a` or `b` lies
      outside [0, 1]. The record is taken by value, so the `u`, `v` it sets
      live only in the copy returned here as the second component. */
  function IsInterior(a: real, b: real, rec: HitRecord): (r: (bool, HitRecord))
    ensures !r.0 <==> a < 0.0 || 1.0 < a || b < 0.0 || 1.0 < b
    ensures r.0 ==> r.1 == rec.(u := a, v := b)
    ensures !r.0 ==> r.1 == rec
  {
    if a < 0.0 || 1.0 < a || b < 0.0 || 1.0 < b then (false, rec)
    else (true, rec.(u := a, v := b))
  }

  /** `dot(normal, direction)`. */
  function Denom(s: Quad, r: Ray): real
  {
    Dot(s.normal, r.dir)
  }

  /** The distance along `r` to the quad's plane. */
  function PlaneT(s: Quad, r: Ray): real
    requires Denom(s, r) != 0.0
  {
    (s.d - Dot(s.normal, r.orig)) / Denom(s, r)
  }

  /** The coordinates of a point of the plane along `u` and `v`. */
  function Alpha(s: Quad, p: Vec3): real
  {
    Dot(s.w, Cross(Sub(p, s.q), s.v))
  }

  function Beta(s: Quad, p: Vec3): real
  {
    Dot(s.w, Cross(s.u, Sub(p, s.q)))
  }

  /** Not grazing: `|denom|` is at least `f64::EPSILON`. */
  predicate Facing(s: Quad, r: Ray)
  {
    Abs(Denom(s, r)) >= F64Epsilon
  }

  /** `Quad::hit`. A ray less than `f64::EPSILON` from parallel, a plane
      distance outside the closed `ray_t` and a crossing with a coordinate
      outside [0, 1] are misses that leave `rec` alone. A hit sets `t`, the
      crossing point, the material and the face normal; `u` and `v` are
      only set on `is_interior`'s copy, so they keep the caller's values. */
  function QuadHit(s: Quad, r: Ray, rayT: Interval, rec: HitRecord): (h: (bool, HitRecord))
    ensures h.0 <==> Facing(s, r) && rayT.Contains(PlaneT(s, r))
                     && 0.0 <= Alpha(s, r.At(PlaneT(s, r))) <= 1.0 && 0.0 <= Beta(s, r.At(PlaneT(s, r))) <= 1.0
    ensures !h.0 ==> h.1 == rec
    ensures h.0 ==> h.1.t == PlaneT(s, r) && h.1.p == r.At(h.1.t) && h.1.mat == Some(s.mat)
    ensures h.0 ==> h.1.u == rec.u && h.1.v == rec.v
    ensures h.0 ==> (h.1.frontFace <==> Dot(r.dir, s.normal) < 0.0)
                    && h.1.normal == (if h.1.frontFace then s.normal else Neg(s.normal))
    ensures h.0 ==> Dot(s.normal, h.1.p) == s.d
  {
    var denom := Dot(s.normal, r.dir);
    if Abs(denom) < F64Epsilon then (false, rec)
    else
      var t := (s.d - Dot(s.normal, r.orig)) / denom;
      if !rayT.Contains(t) then (false, rec)
      else
        var intersection := r.At(t);
        var planarHitptVector := Sub(intersection, s.q);
        var alpha := Dot(s.w, Cross(planarHitptVector, s.v));
        var beta := Dot(s.w, Cross(s.u, planarHitptVector));
        if !IsInterior(alpha, beta, rec).0 then (false, rec)
        else
          OnPlane(s, r);
          (true, SetFaceNormal(rec.(t := t, p := intersection, mat := Some(s.mat)), r, s.normal))
  }

  /** The crossing point at the plane distance lies on the plane. */
  lemma OnPlane(s: Quad, r: Ray)
    requires Denom(s, r) != 0.0
    ensures Dot(s.normal, r.At(PlaneT(s, r))) == s.d
  {
    var t := PlaneT(s, r);
    DotScale(t, r.dir, s.normal);
    DotSymmetric(Scale(t, r.dir), s.normal);
    DotSymmetric(r.dir, s.normal);
    assert t * Denom(s, r) == s.d - Dot(s.normal, r.orig);
    DotAdd(s.normal, r.orig, Scale(t, r.dir));
  }

  lemma DotAdd(n: Vec3, a: Vec3, b: Vec3)
    ensures Dot(n, Add(a, b)) == Dot(n, a) + Dot(n, b)
  {
  }

  /** A quad keeps to the interval it is asked about and leaves the record
      alone when it misses. */
  lemma QuadKeepsToRange(s: Quad)
    ensures Respects(QuadObject(s)) && KeepsOnMiss(QuadObject(s))
  {
  }

  /** `Quad::pdf_value(origin, v)`: 0 when the ray from `origin` along `v`
      misses in [0.001, +inf), otherwise the squared distance over cosine
      times area, which is then positive. */
  function QuadPdfValue(m: Libm, s: Quad, origin: Vec3, v: Vec3): (r: real)
    requires m.Lawful() && s.area > 0.0
    ensures r >= 0.0
    ensures r > 0.0 <==> QuadHit(s, WithOriginAndDirection(origin, v), Interval(Fin(0.001), PosInf), NewRecord()).0
  {
    var (hit, rec) := QuadHit(s, WithOriginAndDirection(origin, v), Interval(Fin(0.001), PosInf), NewRecord());
    if !hit then 0.0
    else
      var distanceSquared := rec.t * rec.t * LengthSquared(v);
      PdfTerms(m, s, origin, v, rec);
      var cosine := Abs(Dot(v, rec.normal) / Length(m, v));
      PositiveQuotient(distanceSquared, cosine * s.area);
      distanceSquared / (cosine * s.area)
  }

  lemma PositiveQuotient(a: real, b: real)
    requires a > 0.0 && b > 0.0
    ensures a / b > 0.0
  {
    var q := a / b;
    assert q * b == a;
    if q <= 0.0 {
      var k := NonNegativeProduct(-q, b);
    }
  }

  /** On a hit of the sampling ray, the direction is not zero, the squared
      distance is positive and so is the cosine term. */
  lemma PdfTerms(m: Libm, s: Quad, origin: Vec3, v: Vec3, rec: HitRecord)
    requires m.Lawful() && s.area > 0.0
    requires QuadHit(s, WithOriginAndDirection(origin, v), Interval(Fin(0.001), PosInf), NewRecord()) == (true, rec)
    ensures v != Zero && rec.t * rec.t * LengthSquared(v) > 0.0
    ensures Abs(Dot(v, rec.normal) / Length(m, v)) * s.area > 0.0
  {
    var r := WithOriginAndDirection(origin, v);
    assert Facing(s, r);
    assert Interval(Fin(0.001), PosInf).Contains(rec.t);
    assert Dot(s.normal, Zero) == 0.0;
    LengthSquaredPositive(v);
    var tt := PositiveProduct(rec.t, rec.t);
    var k := PositiveProduct(tt, LengthSquared(v));
    NormalAgainstRay(s, v, rec.normal);
    CosineTerm(m, v, rec.normal, s.area);
  }

  /** Either orientation of a normal meets a non-grazing direction at a
      non-zero dot product. */
  lemma NormalAgainstRay(s: Quad, v: Vec3, n: Vec3)
    requires Abs(Dot(s.normal, v)) >= F64Epsilon
    requires n == s.normal || n == Neg(s.normal)
    ensures Dot(v, n) != 0.0
  {
    DotSymmetric(s.normal, v);
    DotNeg(v, s.normal);
  }

  lemma DotNeg(a: Vec3, b: Vec3)
    ensures Dot(a, Neg(b)) == -Dot(a, b)
  {
    assert a.x * -b.x == -(a.x * b.x);
    assert a.y * -b.y == -(a.y * b.y);
    assert a.z * -b.z == -(a.z * b.z);
  }

  lemma CosineTerm(m: Libm, v: Vec3, n: Vec3, area: real)
    requires m.Lawful() && v != Zero && Dot(v, n) != 0.0 && area > 0.0
    ensures Abs(Dot(v, n) / Length(m, v)) * area > 0.0
  {
    var l := Length(m, v);
    var c := Dot(v, n) / l;
    assert c * l == Dot(v, n);
    assert Abs(c) > 0.0;
    var j := PositiveProduct(Abs(c), area);
  }

  /** `Quad::random(origin)`: the point `q + d1 u + d2 v` for the draws
      `d1`, `d2`, less `origin`. */
  function QuadRandom(s: Quad, origin: Vec3, d1: real, d2: real): (r: Vec3)
    ensures Add(r, origin) == Add(Add(s.q, Scale(d1, s.u)), Scale(d2, s.v))
  {
    var p := Add(Add(s.q, Scale(d1, s.u)), Scale(d2, s.v));
    ExtensionalAt(Add(Sub(p, origin), origin), p);
    Sub(p, origin)
  }

  /** A cross product with a combination of `u` and `v` in one argument. */
  lemma CrossCombination(a: real, b: real, u: Vec3, v: Vec3)
    ensures Cross(Add(Scale(a, u), Scale(b, v)), v) == Scale(a, Cross(u, v))
    ensures Cross(u, Add(Scale(a, u), Scale(b, v))) == Scale(b, Cross(u, v))
  {
    CrossCombinationLeft(a, b, u, v, Add(Scale(a, u), Scale(b, v)));
    CrossCombinationRight(a, b, u, v, Add(Scale(a, u), Scale(b, v)));
  }

  lemma CrossCombinationLeft(a: real, b: real, u: Vec3, v: Vec3, c: Vec3)
    requires c == Add(Scale(a, u), Scale(b, v))
    ensures Cross(c, v) == Scale(a, Cross(u, v))
  {
    var n := Cross(u, v);
    CrossAddLeft(Scale(a, u), Scale(b, v), v);
    CrossScaleLeft(a, u, v);
    CrossScaleLeft(b, v, v);
    assert Cross(v, v) == Zero;
    assert Add(Scale(a, n), Scale(b, Zero)) == Scale(a, n);
  }

  lemma CrossAddLeft(x: Vec3, y: Vec3, v: Vec3)
    ensures Cross(Add(x, y), v) == Add(Cross(x, v), Cross(y, v))
  {
    SummedDifference(x.y, y.y, v.z, x.z, y.z, v.y);
    SummedDifference(x.z, y.z, v.x, x.x, y.x, v.z);
    SummedDifference(x.x, y.x, v.y, x.y, y.y, v.x);
  }

  lemma SummedDifference(p: real, p': real, q: real, r: real, r': real, s: real)
    ensures (p + p') * q - (r + r') * s == (p * q - r * s) + (p' * q - r' * s)
    ensures q * (p + p') - s * (r + r') == (q * p - s * r) + (q * p' - s * r')
  {
  }

  lemma CrossScaleLeft(a: real, x: Vec3, v: Vec3)
    ensures Cross(Scale(a, x), v) == Scale(a, Cross(x, v))
  {
    var l, r := Cross(Scale(a, x), v), Scale(a, Cross(x, v));
    assert l.x == r.x by { ScaledDifference(a, x.y, v.z, x.z, v.y); }
    assert l.y == r.y by { ScaledDifference(a, x.z, v.x, x.x, v.z); }
    assert l.z == r.z by { ScaledDifference(a, x.x, v.y, x.y, v.x); }
    ExtensionalAt(l, r);
  }

  lemma ScaledDifference(a: real, p: real, q: real, r: real, s: real)
    ensures (a * p) * q - (a * r) * s == a * (p * q - r * s)
    ensures p * (a * q) - r * (a * s) == a * (p * q - r * s)
  {
  }

  lemma CrossCombinationRight(a: real, b: real, u: Vec3, v: Vec3, c: Vec3)
    requires c == Add(Scale(a, u), Scale(b, v))
    ensures Cross(u, c) == Scale(b, Cross(u, v))
  {
    var n := Cross(u, v);
    CrossAddRight(u, Scale(a, u), Scale(b, v));
    CrossScaleRight(u, a, u);
    CrossScaleRight(u, b, v);
    assert Cross(u, u) == Zero;
    assert Add(Scale(a, Zero), Scale(b, n)) == Scale(b, n);
  }

  lemma CrossAddRight(u: Vec3, x: Vec3, y: Vec3)
    ensures Cross(u, Add(x, y)) == Add(Cross(u, x), Cross(u, y))
  {
    SummedDifference(x.z, y.z, u.y, x.y, y.y, u.z);
    SummedDifference(x.x, y.x, u.z, x.z, y.z, u.x);
    SummedDifference(x.y, y.y, u.x, x.x, y.x, u.y);
  }

  lemma CrossScaleRight(u: Vec3, a: real, x: Vec3)
    ensures Cross(u, Scale(a, x)) == Scale(a, Cross(u, x))
  {
    var l, r := Cross(u, Scale(a, x)), Scale(a, Cross(u, x));
    assert l.x == r.x by { ScaledDifference(a, u.y, x.z, u.z, x.y); }
    assert l.y == r.y by { ScaledDifference(a, u.z, x.x, u.x, x.z); }
    assert l.z == r.z by { ScaledDifference(a, u.x, x.y, u.y, x.x); }
    ExtensionalAt(l, r);
  }

  /** In a quad built by `new`, the point `q + a u + b v` has the plane
      coordinates `a` and `b`. */
  lemma PlaneCoordinates(m: Libm, q: Vec3, u: Vec3, v: Vec3, mat: Material, a: real, b: real)
    requires m.Lawful() && Cross(u, v) != Zero
    ensures var s := NewQuad(m, q, u, v, mat);
      var p := Add(Add(q, Scale(a, u)), Scale(b, v));
      Alpha(s, p) == a && Beta(s, p) == b
  {
    var s := NewQuad(m, q, u, v, mat);
    var p := Add(Add(q, Scale(a, u)), Scale(b, v));
    var c := Add(Scale(a, u), Scale(b, v));
    ExtensionalAt(Sub(p, q), c);
    CrossCombination(a, b, u, v);
    DotSymmetric(s.w, Scale(a, Cross(u, v)));
    DotScale(a, Cross(u, v), s.w);
    DotSymmetric(Cross(u, v), s.w);
    DotSymmetric(s.w, Scale(b, Cross(u, v)));
    DotScale(b, Cross(u, v), s.w);
  }

  /** The ray from `origin` towards a point drawn by `random` with draws in
      [0, 1) meets the quad's plane at distance 1, inside the quad, so it
      hits whenever it is not grazing and 1 is in range. */
  lemma SampleIsHit(m: Libm, q: Vec3, u: Vec3, v: Vec3, mat: Material, origin: Vec3, d1: real, d2: real, rayT: Interval)
    requires m.Lawful() && Cross(u, v) != Zero
    requires 0.0 <= d1 < 1.0 && 0.0 <= d2 < 1.0 && rayT.Contains(1.0)
    ensures var s := NewQuad(m, q, u, v, mat);
      var r := WithOriginAndDirection(origin, QuadRandom(s, origin, d1, d2));
      Facing(s, r) ==> PlaneT(s, r) == 1.0 && QuadHit(s, r, rayT, NewRecord()).0
  {
    var s := NewQuad(m, q, u, v, mat);
    var dir := QuadRandom(s, origin, d1, d2);
    var r := WithOriginAndDirection(origin, dir);
    var p := Add(Add(q, Scale(d1, u)), Scale(d2, v));
    if Facing(s, r) {
      PlaneCoordinates(m, q, u, v, mat, d1, d2);
      SampleOnPlane(s, q, u, v, d1, d2);
      assert Add(dir, origin) == p;
      DotAdd(s.normal, dir, origin);
      assert Denom(s, r) == s.d - Dot(s.normal, origin);
      assert PlaneT(s, r) == 1.0;
      ExtensionalAt(r.At(1.0), p);
    }
  }

  /** The point `q + a u + b v` lies on the plane of a quad whose normal is
      orthogonal to `u` and `v`. */
  lemma SampleOnPlane(s: Quad, q: Vec3, u: Vec3, v: Vec3, a: real, b: real)
    requires s.q == q && s.u == u && s.v == v && s.d == Dot(s.normal, q)
    requires Dot(s.normal, u) == 0.0 && Dot(s.normal, v) == 0.0
    ensures Dot(s.normal, Add(Add(q, Scale(a, u)), Scale(b, v))) == s.d
  {
    DotAdd(s.normal, Add(q, Scale(a, u)), Scale(b, v));
    DotAdd(s.normal, q, Scale(a, u));
    DotSymmetric(s.normal, Scale(a, u));
    DotScale(a, u, s.normal);
    DotSymmetric(u, s.normal);
    DotSymmetric(s.normal, Scale(b, v));
    DotScale(b, v, s.normal);
    DotSymmetric(v, s.normal);
  }

  /** A quad as a `dyn Hittable`: `hit` and `bounding_box` are the trait
      methods; `pdf_value` and `random` above are inherent methods that do
      not override the trait, so dispatch gets the trait defaults. */
  function QuadObject(s: Quad): Hittable
  {
    Hittable((r, i, rec) => QuadHit(s, r, i, rec), s.bbox, DefaultPdfValue, DefaultRandom)
  }

  /** Through the trait, a quad answers `hit` with `Quad::hit` and its box,
      but `pdf_value` with 0 and `random` with the x axis whatever the
      quad. */
  lemma QuadDispatch(s: Quad, r: Ray, i: Interval, rec: HitRecord, o: Vec3, v: Vec3)
    ensures QuadObject(s).hit(r, i, rec) == QuadHit(s, r, i, rec)
    ensures QuadObject(s).bbox == s.bbox
    ensures QuadObject(s).pdfValue(o, v) == 0.0 && QuadObject(s).random(o) == Vec3(1.0, 0.0, 0.0)
  {
  }

  /** The corners `bbox` normalises `a` and `b` to: the smaller, and the
      larger, coordinate on every axis. */
  function LowCorner(a: Vec3, b: Vec3): (r: Vec3)
    ensures forall i :: 0 <= i < 3 ==> r.At(i) == Floats.Min(a.At(i), b.At(i))
  {
    Vec3(Floats.Min(a.x, b.x), Floats.Min(a.y, b.y), Floats.Min(a.z, b.z))
  }

  function HighCorner(a: Vec3, b: Vec3): (r: Vec3)
    ensures forall i :: 0 <= i < 3 ==> r.At(i) == Floats.Max(a.At(i), b.At(i))
    ensures forall i :: 0 <= i < 3 ==> LowCorner(a, b).At(i) <= r.At(i)
    ensures forall i :: 0 <= i < 3 && a.At(i) != b.At(i) ==> LowCorner(a, b).At(i) < r.At(i)
  {
    Vec3(Floats.Max(a.x, b.x), Floats.Max(a.y, b.y), Floats.Max(a.z, b.z))
  }

  /** The six faces `bbox` adds, as (corner, first edge, second edge): front
      (z = max), right (x = max), back (z = min), left (x = min), top
      (y = max) and bottom (y = min), with `dx`, `dy`, `dz` the box's
      extents along the axes. */
  function Faces(a: Vec3, b: Vec3): (r: seq<(Vec3, Vec3, Vec3)>)
    ensures |r| == 6
  {
    var lo, hi := LowCorner(a, b), HighCorner(a, b);
    var dx := Vec3(hi.x - lo.x, 0.0, 0.0);
    var dy := Vec3(0.0, hi.y - lo.y, 0.0);
    var dz := Vec3(0.0, 0.0, hi.z - lo.z);
    [(Vec3(lo.x, lo.y, hi.z), dx, dy),
     (Vec3(hi.x, lo.y, hi.z), Neg(dz), dy),
     (Vec3(hi.x, lo.y, lo.z), Neg(dx), dy),
     (Vec3(lo.x, lo.y, lo.z), dz, dy),
     (Vec3(lo.x, hi.y, hi.z), dx, Neg(dz)),
     (Vec3(lo.x, lo.y, lo.z), dx, dz)]
  }

  /** With positive extents, no two of the edge vectors `bbox` pairs up
      are parallel. */
  lemma EdgesAreProper(dx: Vec3, dy: Vec3, dz: Vec3)
    requires dx.x > 0.0 && dx.y == 0.0 && dx.z == 0.0
    requires dy.x == 0.0 && dy.y > 0.0 && dy.z == 0.0
    requires dz.x == 0.0 && dz.y == 0.0 && dz.z > 0.0
    ensures Cross(dx, dy) != Zero && Cross(Neg(dz), dy) != Zero && Cross(Neg(dx), dy) != Zero
    ensures Cross(dz, dy) != Zero && Cross(dx, Neg(dz)) != Zero && Cross(dx, dz) != Zero
  {
    var xy := PositiveProduct(dx.x, dy.y);
    var zy := PositiveProduct(dz.z, dy.y);
    var xz := PositiveProduct(dx.x, dz.z);
    assert Cross(dx, dy).z == xy;
    assert Cross(Neg(dz), dy).x == zy;
    assert Cross(Neg(dx), dy).z == -xy;
    assert Cross(dz, dy).x == -zy;
    assert Cross(dx, Neg(dz)).y == xz;
    assert Cross(dx, dz).y == -xz;
  }

  /** For points that differ on every axis, every face of `Faces` has
      non-parallel edges; the front face's far corner is the high corner
      and the left face starts at the low one. */
  lemma FacesAreProper(a: Vec3, b: Vec3)
    requires a.x != b.x && a.y != b.y && a.z != b.z
    ensures forall i :: 0 <= i < 6 ==> Cross(Faces(a, b)[i].1, Faces(a, b)[i].2) != Zero
    ensures FarCorner(Faces(a, b)[0].0, Faces(a, b)[0].1, Faces(a, b)[0].2) == HighCorner(a, b)
    ensures Faces(a, b)[3].0 == LowCorner(a, b)
  {
    var lo, hi := LowCorner(a, b), HighCorner(a, b);
    assert lo.At(0) < hi.At(0) && lo.At(1) < hi.At(1) && lo.At(2) < hi.At(2);
    var dx := Vec3(hi.x - lo.x, 0.0, 0.0);
    var dy := Vec3(0.0, hi.y - lo.y, 0.0);
    var dz := Vec3(0.0, 0.0, hi.z - lo.z);
    EdgesAreProper(dx, dy, dz);
  }

  /** The `bbox` helper: a list of the six faces of the box spanned by `a`
      and `b`, in the order of `Faces`, whose box holds both normalised
      corners. The face list is built first and then added face by face,
      which computes what the source's six inline `Quad::new` calls do.
      The source requires nothing of the points; two points that agree on
      an axis give a face with parallel edges, excluded here. */
  method BoxSides(m: Libm, a: Vec3, b: Vec3, mat: Material) returns (sides: HittableList, ghost quads: seq<Quad>)
    requires m.Lawful() && a.x != b.x && a.y != b.y && a.z != b.z
    ensures fresh(sides)
    ensures |quads| == 6 && |sides.objects| == 6
    ensures forall i :: 0 <= i < 6 ==> sides.objects[i] == QuadObject(quads[i])
    ensures forall i :: 0 <= i < 6 ==>
      (quads[i].q, quads[i].u, quads[i].v) == Faces(a, b)[i] && quads[i].mat == mat
    ensures sides.bbox.Holds(LowCorner(a, b)) && sides.bbox.Holds(HighCorner(a, b))
  {
    sides := new HittableList();
    var f := Faces(a, b);
    FacesAreProper(a, b);
    var q0 := AddQuad(sides, m, f[0].0, f[0].1, f[0].2, mat);
    var q1 := AddQuad(sides, m, f[1].0, f[1].1, f[1].2, mat);
    var q2 := AddQuad(sides, m, f[2].0, f[2].1, f[2].2, mat);
    var q3 := AddQuad(sides, m, f[3].0, f[3].1, f[3].2, mat);
    var q4 := AddQuad(sides, m, f[4].0, f[4].1, f[4].2, mat);
    var q5 := AddQuad(sides, m, f[5].0, f[5].1, f[5].2, mat);
    quads := [q0, q1, q2, q3, q4, q5];
  }

  /** `sides.add(Arc::new(Quad::new(q, u, v, mat)))`: the new quad goes at
      the end of the list, whose box then holds both of its corners. */
  method AddQuad(sides: HittableList, m: Libm, q: Vec3, u: Vec3, v: Vec3, mat: Material) returns (s: Quad)
    requires m.Lawful() && Cross(u, v) != Zero
    modifies sides
    ensures s.q == q && s.u == u && s.v == v && s.mat == mat
    ensures sides.objects == old(sides.objects) + [QuadObject(s)]
    ensures forall p :: old(sides.bbox).Holds(p) ==> sides.bbox.Holds(p)
    ensures sides.bbox.Holds(q) && sides.bbox.Holds(FarCorner(q, u, v))
  {
    s := NewQuad(m, q, u, v, mat);
    sides.Add(QuadObject(s));
  }
}
