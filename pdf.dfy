/** Probability densities over directions (src/pdf.rs): the cosine density
    around a normal, the uniform density on the sphere, the density of
    directions towards an object, and the even mixture of two densities.
    `value` evaluates a density at a direction; `generate` samples a
    direction from the draws it is given. */
module Pdfs {
  import opened Floats
  import opened Vectors
  import opened Scene
  import opened Onbs
  import opened Utils

  /** The four `Pdf` implementations, by their stored fields. */
  datatype Pdf =
    | CosinePdf(uvw: Onb)
    | SpherePdf
    | HittablePdf(origin: Vec3, objects: Hittable)
    | MixturePdf(p0: Pdf, p1: Pdf)

  /** The random numbers one `generate` call on a non-mixture density
      consumes: the two draws of `random_cosine_direction`, the accepted
      in-sphere point behind `random_unit_vector` (never the origin, whose
      normalisation is NaN), and the draw a mixture compares with 0.5. */
  datatype Draw = Draw(r1: real, r2: real, inSphere: Vec3, choice: real)

  predicate ValidDraw(d: Draw)
  {
    0.0 <= d.r1 < 1.0 && 0.0 <= d.r2 < 1.0 && d.inSphere != Zero && 0.0 <= d.choice < 1.0
  }

  predicate ValidDraws(ds: seq<Draw>)
  {
    forall i :: 0 <= i < |ds| ==> ValidDraw(ds[i])
  }

  /** The trait default `value`: zero for every direction. */
  function DefaultValue(direction: Vec3): (r: real)
    ensures r == 0.0
  {
    0.0
  }

  /** The trait default `generate`: the zero vector. */
  function DefaultGenerate(): (r: Vec3)
    ensures r == Zero
  {
    Zero
  }

  /** `CosinePdf::new(w)`: the frame built around `w`. */
  function NewCosine(m: Libm, w: Vec3): (p: Pdf)
    requires m.Lawful() && w != Zero
    ensures p.CosinePdf? && Orthonormal(p.uvw) && p.uvw.w == UnitVector(m, w)
  {
    CosinePdf(BuildFromW(m, w))
  }

  /** `HittablePdf::new(objects, origin)`. */
  function NewHittable(objects: Hittable, origin: Vec3): (p: Pdf)
    ensures p.HittablePdf? && p.objects == objects && p.origin == origin
  {
    HittablePdf(origin, objects)
  }

  /** `MixturePdf::new(p0, p1)`. */
  function NewMixture(p0: Pdf, p1: Pdf): (p: Pdf)
    ensures p.MixturePdf? && p.p0 == p0 && p.p1 == p1
  {
    MixturePdf(p0, p1)
  }

  /** `1 / (4 pi)`, the uniform density on the unit sphere. */
  function SphereDensity(): (r: real)
    ensures 0.0 < r < 1.0
  {
    var q := 4.0 * Pi;
    PositiveQuotientBelowOne(q);
    1.0 / q
  }

  lemma PositiveQuotientBelowOne(q: real)
    requires q > 1.0
    ensures 0.0 < 1.0 / q < 1.0
  {
    var r := 1.0 / q;
    assert r * q == 1.0;
    if r >= 1.0 {
      var k := NonNegativeProduct(r - 1.0, q);
    }
    if r <= 0.0 {
      var k := NonNegativeProduct(-r, q);
    }
  }

  /** The `CosinePdf` value: the cosine between the normalised direction and
      `w()` over pi, or 0 when that is negative. The zero direction has a
      NaN cosine, which `f64::max` drops in favour of 0. The value is
      positive exactly when the direction points into `w`'s hemisphere. */
  function CosineValue(m: Libm, uvw: Onb, direction: Vec3): (r: real)
    requires m.Lawful()
    ensures r >= 0.0
    ensures direction == Zero ==> r == 0.0
    ensures direction != Zero ==> (r > 0.0 <==> Dot(UnitVector(m, direction), uvw.w) > 0.0)
    ensures direction != Zero ==> (r > 0.0 ==> r * Pi == Dot(UnitVector(m, direction), uvw.w))
  {
    if direction == Zero then 0.0
    else
      var cosineTheta := Dot(UnitVector(m, direction), uvw.w);
      var q := cosineTheta / Pi;
      QuotientSign(cosineTheta, Pi);
      Max(0.0, q)
  }

  /** Dividing by a positive number keeps the sign. */
  lemma QuotientSign(c: real, d: real)
    requires d > 0.0
    ensures (c / d > 0.0 <==> c > 0.0) && (c / d) * d == c
  {
    var q := c / d;
    assert q * d == c;
    if q > 0.0 {
      var k := PositiveProduct(q, d);
    } else {
      var k := NonNegativeProduct(-q, d);
    }
  }

  /** `Pdf::value` for each density. */
  function Value(m: Libm, p: Pdf, direction: Vec3): (r: real)
    requires m.Lawful()
    ensures p.CosinePdf? ==> r == CosineValue(m, p.uvw, direction)
    ensures p.SpherePdf? ==> r == SphereDensity()
    ensures p.HittablePdf? ==> r == p.objects.pdfValue(p.origin, direction)
  {
    match p
    case CosinePdf(uvw) => CosineValue(m, uvw, direction)
    case SpherePdf => SphereDensity()
    case HittablePdf(origin, objects) => objects.pdfValue(origin, direction)
    case MixturePdf(p0, p1) => 0.5 * Value(m, p0, direction) + 0.5 * Value(m, p1, direction)
  }

  /** Every object a density points at gives a non-negative `pdf_value` in
      the direction. */
  ghost predicate NonNegativeTargets(p: Pdf, direction: Vec3)
  {
    match p
    case HittablePdf(origin, objects) => objects.pdfValue(origin, direction) >= 0.0
    case MixturePdf(p0, p1) => NonNegativeTargets(p0, direction) && NonNegativeTargets(p1, direction)
    case _ => true
  }

  /** A density is non-negative wherever the objects it points at are. */
  lemma {:induction false} ValueNonNegative(m: Libm, p: Pdf, direction: Vec3)
    requires m.Lawful() && NonNegativeTargets(p, direction)
    ensures Value(m, p, direction) >= 0.0
  {
    match p
    case MixturePdf(p0, p1) =>
      ValueNonNegative(m, p0, direction);
      ValueNonNegative(m, p1, direction);
    case _ =>
  }

  /** The even mixture lies between its two parts, is non-negative when both
      are, and is `c` when both are `c`. */
  lemma MixtureValue(m: Libm, p0: Pdf, p1: Pdf, direction: Vec3)
    requires m.Lawful()
    ensures var a, b, r := Value(m, p0, direction), Value(m, p1, direction), Value(m, MixturePdf(p0, p1), direction);
      Min(a, b) <= r <= Max(a, b) &&
      (a >= 0.0 && b >= 0.0 ==> r >= 0.0) &&
      (a == b ==> r == a)
  {
  }

  /** The number of nested mixtures, which bounds the draws `generate`
      consumes. */
  function Depth(p: Pdf): nat
  {
    match p
    case MixturePdf(p0, p1) => 1 + (if Depth(p0) < Depth(p1) then Depth(p1) else Depth(p0))
    case _ => 0
  }

  /** `Pdf::generate` over the draws `ds`: a mixture compares the first
      draw's `choice` with 0.5 and hands the rest to the part it picks; the
      other densities use the first draw. */
  function Generate(m: Libm, p: Pdf, ds: seq<Draw>): (r: Vec3)
    requires m.Lawful() && |ds| > Depth(p)
    requires ValidDraws(ds)
    ensures p.CosinePdf? ==> r == p.uvw.Vec3Local(RandomCosineDirection(m, ds[0].r1, ds[0].r2))
    ensures p.SpherePdf? ==> r == RandomUnitVector(m, ds[0].inSphere)
    ensures p.HittablePdf? ==> r == p.objects.random(p.origin)
  {
    match p
    case CosinePdf(uvw) => uvw.Vec3Local(RandomCosineDirection(m, ds[0].r1, ds[0].r2))
    case SpherePdf => RandomUnitVector(m, ds[0].inSphere)
    case HittablePdf(origin, objects) => objects.random(origin)
    case MixturePdf(p0, p1) =>
      var rest := ds[1..];
      assert forall i :: 0 <= i < |rest| ==> rest[i] == ds[i + 1];
      if ds[0].choice < 0.5 then Generate(m, p0, rest) else Generate(m, p1, rest)
  }

  /** A mixture returns the first part's sample exactly when its draw is
      below 0.5, and the second part's otherwise. */
  lemma MixtureGenerate(m: Libm, p0: Pdf, p1: Pdf, ds: seq<Draw>)
    requires m.Lawful() && |ds| > Depth(MixturePdf(p0, p1))
    requires ValidDraws(ds)
    ensures |ds[1..]| > Depth(p0) && |ds[1..]| > Depth(p1)
    ensures ds[0].choice < 0.5 ==> Generate(m, MixturePdf(p0, p1), ds) == Generate(m, p0, ds[1..])
    ensures ds[0].choice >= 0.5 ==> Generate(m, MixturePdf(p0, p1), ds) == Generate(m, p1, ds[1..])
  {
  }

  /** A cosine sample in an orthonormal frame never points below the
      surface: its cosine with `w()` is the sampled z, which is not
      negative. */
  lemma CosineSampleAbove(m: Libm, uvw: Onb, d: Draw)
    requires m.Lawful() && Orthonormal(uvw) && ValidDraw(d)
    ensures Dot(Generate(m, CosinePdf(uvw), [d]), uvw.w) >= 0.0
  {
    var a := RandomCosineDirection(m, d.r1, d.r2);
    LocalCoordinates(uvw, a);
  }

  /** A sample of the sphere density is a unit vector. */
  lemma SphereSampleIsUnit(m: Libm, d: Draw)
    requires m.Lawful() && ValidDraw(d)
    ensures LengthSquared(Generate(m, SpherePdf, [d])) == 1.0
  {
    UnitVectorIsUnit(m, d.inSphere);
  }
}
