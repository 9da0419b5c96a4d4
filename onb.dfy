/** Orthonormal bases (src/onb.rs): the frame `[u, v, w]` built around a
    direction `w`, and the map from local coordinates in that frame to world
    coordinates. */
module Onbs {
  import opened Floats
  import opened Vectors

  /** The three axes `axis[0]`, `axis[1]`, `axis[2]`, read by `u()`, `v()`
      and `w()`. */
  datatype Onb = Onb(u: Vec3, v: Vec3, w: Vec3)
  {
    /** `Index`: axis `i` of `[u, v, w]`. */
    function Index(i: nat): (r: Vec3)
      requires i < 3
      ensures i == 0 ==> r == u
      ensures i == 1 ==> r == v
      ensures i == 2 ==> r == w
    {
      [u, v, w][i]
    }

    /** `f64_local(a, b, c)`: `a u + b v + c w`. */
    function Local(a: real, b: real, c: real): (r: Vec3)
    {
      Add(Add(Scale(a, u), Scale(b, v)), Scale(c, w))
    }

    /** `vec3_local(a)`: the point whose coordinates in the frame are the
        components of `a`; it is `f64_local` on those components. */
    function Vec3Local(a: Vec3): (r: Vec3)
      ensures r == Local(a.x, a.y, a.z)
    {
      Add(Add(Scale(a.x, u), Scale(a.y, v)), Scale(a.z, w))
    }
  }

  /** Unit axes, pairwise orthogonal. */
  predicate Orthonormal(b: Onb)
  {
    LengthSquared(b.u) == 1.0 && LengthSquared(b.v) == 1.0 && LengthSquared(b.w) == 1.0
    && Dot(b.u, b.v) == 0.0 && Dot(b.v, b.w) == 0.0 && Dot(b.u, b.w) == 0.0
  }

  const YAxis := Vec3(0.0, 1.0, 0.0)
  const XAxis := Vec3(1.0, 0.0, 0.0)

  /** The helper vector of `build_from_w`: the y axis when the unit `w` is
      close to the x axis (`|x| > 0.9`), the x axis otherwise. Either way it
      is not parallel to a unit `w`, so their cross product is not zero. */
  function Helper(unitW: Vec3): (a: Vec3)
    ensures Abs(unitW.x) > 0.9 <==> a == YAxis
    ensures Abs(unitW.x) <= 0.9 <==> a == XAxis
    ensures LengthSquared(unitW) == 1.0 ==> Cross(unitW, a) != Zero
  {
    if Abs(unitW.x) > 0.9 then YAxis
    else
      HelperNotParallel(unitW);
      XAxis
  }

  /** A unit vector with `|x| <= 0.9` has a non-zero y or z. */
  lemma HelperNotParallel(w: Vec3)
    ensures LengthSquared(w) == 1.0 && Abs(w.x) <= 0.9 ==> Cross(w, XAxis) != Zero
  {
    CrossXAxis(w);
    if LengthSquared(w) == 1.0 && Abs(w.x) <= 0.9 {
      SmallSquare(w.x);
      OtherComponents(w.x, w.y, w.z);
    }
  }

  lemma CrossXAxis(w: Vec3)
    ensures Cross(w, XAxis) == Vec3(0.0, w.z, -w.y)
  {
  }

  lemma SmallSquare(x: real)
    requires Abs(x) <= 0.9
    ensures x * x <= 0.81
  {
    var a := Abs(x);
    var aa := NonNegativeProduct(a, a);
    var s := NonNegativeProduct(0.9 - a, 0.9 + a);
    assert aa == x * x;
  }

  lemma OtherComponents(x: real, y: real, z: real)
    requires x * x <= 0.81 && x * x + y * y + z * z == 1.0
    ensures y != 0.0 || z != 0.0
  {
  }

  /** The squared length of a cross product (Lagrange's identity). */
  lemma CrossLengthSquared(a: Vec3, b: Vec3)
    ensures LengthSquared(Cross(a, b)) == LengthSquared(a) * LengthSquared(b) - Dot(a, b) * Dot(a, b)
  {
  }

  /** `ONB::build_from_w(w)`: `w()` is the normalised input; `v()` is the
      normalised cross product of it with the helper vector, and `u()` is
      `w() x v()`. The result is orthonormal. */
  function BuildFromW(m: Libm, w: Vec3): (b: Onb)
    requires m.Lawful() && w != Zero
    ensures Orthonormal(b)
    ensures b.w == UnitVector(m, w)
    ensures b.v == UnitVector(m, Cross(b.w, Helper(b.w)))
    ensures b.u == Cross(b.w, b.v)
  {
    FrameFromW(m, w);
    var unitW := UnitVector(m, w);
    var v := UnitVector(m, Cross(unitW, Helper(unitW)));
    Onb(Cross(unitW, v), v, unitW)
  }

  /** The unit `w`, the unit of `w x helper` and their cross product are
      an orthonormal frame. */
  lemma FrameFromW(m: Libm, w: Vec3)
    requires m.Lawful() && w != Zero
    ensures var unitW := UnitVector(m, w);
      LengthSquared(unitW) == 1.0 && Cross(unitW, Helper(unitW)) != Zero
    ensures var unitW := UnitVector(m, w); var v := UnitVector(m, Cross(unitW, Helper(unitW)));
      Orthonormal(Onb(Cross(unitW, v), v, unitW))
  {
    var unitW := UnitVector(m, w);
    UnitVectorIsUnit(m, w);
    var c := Cross(unitW, Helper(unitW));
    var v := UnitVector(m, c);
    UnitVectorIsUnit(m, c);
    DotSymmetric(unitW, c);
    UnitVectorOrthogonal(m, c, unitW);
    CompletedFrame(unitW, v);
  }

  /** Two orthogonal unit vectors `w`, `v` and `w x v` make an orthonormal
      frame. */
  lemma CompletedFrame(w: Vec3, v: Vec3)
    requires LengthSquared(w) == 1.0 && LengthSquared(v) == 1.0 && Dot(v, w) == 0.0
    ensures Orthonormal(Onb(Cross(w, v), v, w))
  {
    var u := Cross(w, v);
    CrossOrthogonal(w, v);
    CrossLengthSquared(w, v);
    DotSymmetric(v, w);
    var d := Dot(w, v);
    assert d == 0.0;
    var lw, lv := LengthSquared(w), LengthSquared(v);
    assert LengthSquared(u) == lw * lv - d * d;
    DotSymmetric(w, u);
    DotSymmetric(v, u);
  }

  /** A dot product splits over the frame's combination. */
  lemma DotLocal(b: Onb, x: real, y: real, z: real, e: Vec3)
    ensures Dot(b.Local(x, y, z), e) == x * Dot(b.u, e) + y * Dot(b.v, e) + z * Dot(b.w, e)
  {
    DotScale(x, b.u, e);
    DotScale(y, b.v, e);
    DotScale(z, b.w, e);
  }

  /** In an orthonormal frame the local coordinates come back as the dot
      products with the axes: `vec3_local` is undone by projecting. */
  lemma LocalCoordinates(b: Onb, a: Vec3)
    requires Orthonormal(b)
    ensures Dot(b.Vec3Local(a), b.u) == a.x
    ensures Dot(b.Vec3Local(a), b.v) == a.y
    ensures Dot(b.Vec3Local(a), b.w) == a.z
  {
    DotSymmetric(b.u, b.v);
    DotSymmetric(b.v, b.w);
    DotSymmetric(b.u, b.w);
    assert Dot(b.u, b.u) == 1.0 && Dot(b.v, b.v) == 1.0 && Dot(b.w, b.w) == 1.0;
    DotLocal(b, a.x, a.y, a.z, b.u);
    DotLocal(b, a.x, a.y, a.z, b.v);
    DotLocal(b, a.x, a.y, a.z, b.w);
  }

  /** `vec3_local` maps the local z axis to `w()`, and likewise x to `u()`
      and y to `v()`. */
  lemma LocalAxes(b: Onb)
    ensures b.Vec3Local(Vec3(0.0, 0.0, 1.0)) == b.w
    ensures b.Vec3Local(Vec3(1.0, 0.0, 0.0)) == b.u
    ensures b.Vec3Local(Vec3(0.0, 1.0, 0.0)) == b.v
  {
    ScaleByConstants(b.u);
    ScaleByConstants(b.v);
    ScaleByConstants(b.w);
  }

  lemma ScaleByConstants(a: Vec3)
    ensures Scale(0.0, a) == Zero && Scale(1.0, a) == a
  {
  }
}
