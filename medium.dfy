/** Participating media of the nalgebra generation (src/medium.rs): a
    volume of constant density bounded by another object, which a ray
    crosses with a random free path. */
module Media {
  import opened Floats
  import opened Vectors
  import opened Rays
  import opened Aabb
  import opened Shapes

  /** `ConstantMedium` with its boundary, its density and the reference of
      its `Isotropic` phase function. */
  datatype ConstantMedium = ConstantMedium(boundary: Shape, density: real, phaseFunction: MaterialRef)

  /** `-(1 / density) * ln(U)`, the free path drawn from the uniform draw
      `U`; `None` stands for the infinite path of `U = 0`. It is positive
      for a positive density. */
  function HitDistance(m: Libm, density: real, draw: real): (r: Option<real>)
    requires m.Lawful() && density > 0.0 && 0.0 <= draw < 1.0
    ensures r.None? <==> draw == 0.0
    ensures r.Some? ==> r.value > 0.0
  {
    if draw == 0.0 then None
    else
      var inv := 1.0 / density;
      var l := m.ln(draw);
      assert l < 0.0;
      ProductOfSigns(inv, l);
      Some(-inv * l)
  }

  lemma ProductOfSigns(p: real, n: real)
    requires p > 0.0 && n < 0.0
    ensures -p * n > 0.0
  {
    var k := PositiveProduct(p, -n);
  }

  /** `ConstantMedium::hit`, given the uniform draw `U` that `rng.gen`
      returns. The boundary is asked for its first crossing anywhere on the
      line and for the next one at least 0.0001 further on. The two
      distances are clipped to [`t_min`, `t_max`] step by step, and the
      medium is hit when the free path is shorter than the clipped stretch
      inside the boundary. */
  method MediumHit(m: Libm, medium: ConstantMedium, ray: Ray, tMin: real, tMax: real, draw: real) returns (r: Option<Hit>)
    requires m.Lawful() && medium.density > 0.0 && 0.0 <= draw < 1.0
    ensures r == MediumRecord(m, medium, ray, tMin, tMax, draw)
  {
    var hit1 := medium.boundary.hit(ray, -F64Max, F64Max);
    if hit1.None? { return None; }
    var hit2 := medium.boundary.hit(ray, hit1.value.t + 0.0001, F64Max);
    if hit2.None? { return None; }
    var t1, t2 := hit1.value.t, hit2.value.t;
    if t1 < tMin { t1 := tMin; }
    if t2 > tMax { t2 := tMax; }
    assert t1 == Max(hit1.value.t, tMin) && t2 == Min(hit2.value.t, tMax);
    if t1 < t2 {
      var norm := Length(m, ray.dir);
      var distanceInsideBoundary := (t2 - t1) * norm;
      var hitDistance := HitDistance(m, medium.density, draw);
      if hitDistance.Some? && hitDistance.value < distanceInsideBoundary {
        assert MediumCrossing(m, medium, ray, tMin, tMax, draw) == Some((t1, t2));
        var t := t1 + hitDistance.value / norm;
        return Some(Hit(t, ray.At(t), Vec3(1.0, 0.0, 0.0), 0.0, 0.0, medium.phaseFunction));
      }
    }
    assert MediumCrossing(m, medium, ray, tMin, tMax, draw).None?;
    return None;
  }

  /** The record `ConstantMedium::hit` returns: on a hit the distance is
      the clipped entry plus the free path over the direction's length, so
      it lies strictly inside the clipped stretch and hence in
      [`t_min`, `t_max`]; the point is on the ray, the normal is the
      arbitrary `(1, 0, 0)`, `u = v = 0` and the material is the phase
      function. */
  function MediumRecord(m: Libm, medium: ConstantMedium, ray: Ray, tMin: real, tMax: real, draw: real): (r: Option<Hit>)
    requires m.Lawful() && medium.density > 0.0 && 0.0 <= draw < 1.0
    ensures r.Some? <==> MediumCrossing(m, medium, ray, tMin, tMax, draw).Some?
    ensures r.Some? ==> (var (t1, t2) := MediumCrossing(m, medium, ray, tMin, tMax, draw).value;
      && r.value.t == t1 + HitDistance(m, medium.density, draw).value / Length(m, ray.dir)
      && tMin <= t1 < r.value.t < t2 <= tMax)
    ensures r.Some? ==> (r.value.p == ray.At(r.value.t) && r.value.normal == Vec3(1.0, 0.0, 0.0)
      && r.value.u == 0.0 && r.value.v == 0.0 && r.value.material == medium.phaseFunction)
  {
    match MediumCrossing(m, medium, ray, tMin, tMax, draw)
    case None => None
    case Some((t1, t2)) =>
      var norm := Length(m, ray.dir);
      var hd := HitDistance(m, medium.density, draw).value;
      InsideStretch(t1, t2, norm, hd);
      var t := t1 + hd / norm;
      Some(Hit(t, ray.At(t), Vec3(1.0, 0.0, 0.0), 0.0, 0.0, medium.phaseFunction))
  }

  /** The clipped stretch `(t1, t2)` inside the boundary when the medium is
      hit: both boundary queries succeed, the clipped distances are in
      order and the free path is shorter than the stretch. */
  function MediumCrossing(m: Libm, medium: ConstantMedium, ray: Ray, tMin: real, tMax: real, draw: real): (r: Option<(real, real)>)
    requires m.Lawful() && medium.density > 0.0 && 0.0 <= draw < 1.0
    ensures r.Some? ==> tMin <= r.value.0 < r.value.1 <= tMax
    ensures r.Some? ==> (var hit1 := medium.boundary.hit(ray, -F64Max, F64Max);
      && hit1.Some? && medium.boundary.hit(ray, hit1.value.t + 0.0001, F64Max).Some?
      && r.value.0 == Max(hit1.value.t, tMin)
      && r.value.1 == Min(medium.boundary.hit(ray, hit1.value.t + 0.0001, F64Max).value.t, tMax))
    ensures r.Some? ==> (var hd := HitDistance(m, medium.density, draw);
      hd.Some? && hd.value < (r.value.1 - r.value.0) * Length(m, ray.dir))
  {
    match medium.boundary.hit(ray, -F64Max, F64Max)
    case None => None
    case Some(hit1) =>
      match medium.boundary.hit(ray, hit1.t + 0.0001, F64Max)
      case None => None
      case Some(hit2) =>
        var t1, t2 := Max(hit1.t, tMin), Min(hit2.t, tMax);
        var hd := HitDistance(m, medium.density, draw);
        if t1 < t2 && hd.Some? && hd.value < (t2 - t1) * Length(m, ray.dir) then Some((t1, t2)) else None
  }

  /** A positive free path shorter than `(t2 - t1) * norm` lands strictly
      between `t1` and `t2`. */
  lemma InsideStretch(t1: real, t2: real, norm: real, hd: real)
    requires t1 < t2 && norm >= 0.0 && 0.0 < hd < (t2 - t1) * norm
    ensures norm > 0.0 && t1 < t1 + hd / norm < t2
  {
    var w := t2 - t1;
    assert norm != 0.0;
    var q := hd / norm;
    assert q * norm == hd;
    if q <= 0.0 {
      var k := NonNegativeProduct(-q, norm);
    }
    if q >= w {
      var k := NonNegativeProduct(q - w, norm);
    }
  }

  /** A missing boundary crossing, or a draw of exactly 0, is a miss. */
  lemma MissWithoutCrossing(m: Libm, medium: ConstantMedium, ray: Ray, tMin: real, tMax: real, draw: real)
    requires m.Lawful() && medium.density > 0.0 && 0.0 <= draw < 1.0
    requires medium.boundary.hit(ray, -F64Max, F64Max).None? || draw == 0.0
    ensures MediumCrossing(m, medium, ray, tMin, tMax, draw).None?
  {
  }

  /** `ConstantMedium::bounding_box`: the boundary's box. */
  function MediumBoundingBox(medium: ConstantMedium, t0: real, t1: real): (r: Option<Box>)
    ensures r == medium.boundary.boundingBox(t0, t1)
  {
    medium.boundary.boundingBox(t0, t1)
  }
}
