/** Materials of the `Interval` generation (src/material.rs): what light a
    surface emits, how it scatters an incoming ray and with what density.
    `scatter` writes into the `ScatterRecord` it is lent; here the record is
    passed in and the record as `scatter` leaves it is returned next to the
    flag, so the fields a material does not write keep the caller's values. */
module Materials {
  import opened Floats
  import opened Vectors
  import opened Rays
  import opened Scene
  import opened Onbs
  import opened Pdfs
  import opened Utils

  /** `ScatterRecord { attenuation, pdf_ptr, skip_pdf, skip_pdf_ray }`. */
  datatype ScatterRecord = ScatterRecord(attenuation: Vec3, pdfPtr: Option<Pdf>, skipPdf: bool, skipPdfRay: Ray)

  const Black := Vec3(0.0, 0.0, 0.0)
  const White := Vec3(1.0, 1.0, 1.0)

  /** `Lambertian::color(a)`: a solid albedo. */
  function LambertianColor(a: Vec3): (mat: Material)
    ensures mat.Lambertian? && forall u, v, p :: mat.albedo(u, v, p) == a
  {
    Lambertian(SolidColor(a))
  }

  /** `Metal::new(a, f)`: the fuzz is capped at 1. */
  function NewMetal(a: Vec3, f: real): (mat: Material)
    ensures mat.Metal? && mat.colour == a
    ensures mat.fuzz <= 1.0 && mat.fuzz == Floats.Min(f, 1.0)
    ensures f < 1.0 ==> mat.fuzz == f
  {
    Metal(a, if f < 1.0 then f else 1.0)
  }

  /** `DiffuseLight::with_color(c)`: a solid emission. */
  function DiffuseLightColor(c: Vec3): (mat: Material)
    ensures mat.DiffuseLight? && forall u, v, p :: mat.emit(u, v, p) == c
  {
    DiffuseLight(SolidColor(c))
  }

  /** `Isotropic::with_color(c)`: a solid albedo. */
  function IsotropicColor(c: Vec3): (mat: Material)
    ensures mat.Isotropic? && forall u, v, p :: mat.albedo(u, v, p) == c
  {
    Isotropic(SolidColor(c))
  }

  /** `emitted`: only a diffuse light emits, and only from its front face;
      every other material keeps the trait default, black. */
  function Emitted(mat: Material, rIn: Ray, rec: HitRecord, u: real, v: real, p: Vec3): (c: Vec3)
    ensures !mat.DiffuseLight? ==> c == Black
    ensures mat.DiffuseLight? && !rec.frontFace ==> c == Black
    ensures mat.DiffuseLight? && rec.frontFace ==> c == mat.emit(u, v, p)
  {
    match mat
    case DiffuseLight(emit) => if !rec.frontFace then Black else emit(u, v, p)
    case _ => Black
  }

  /** The cosine between the normal and the normalised scattered
      direction. */
  function LambertianCosine(m: Libm, rec: HitRecord, scattered: Ray): real
    requires m.Lawful() && scattered.dir != Zero
  {
    Dot(rec.normal, UnitVector(m, scattered.dir))
  }

  /** `scattering_pdf`: for a Lambertian surface the cosine over pi, or 0
      when the cosine is negative; for an isotropic medium the uniform
      sphere density; for the rest the trait default 0. It is never
      negative, and positive for a Lambertian surface exactly when the
      scattered ray leaves on the normal's side. */
  function ScatteringPdf(m: Libm, mat: Material, rIn: Ray, rec: HitRecord, scattered: Ray): (r: real)
    requires m.Lawful() && (mat.Lambertian? ==> scattered.dir != Zero)
    ensures r >= 0.0
    ensures mat.Lambertian? ==> (r > 0.0 <==> LambertianCosine(m, rec, scattered) > 0.0)
    ensures mat.Lambertian? && r > 0.0 ==> r * Pi == LambertianCosine(m, rec, scattered)
    ensures mat.Isotropic? ==> r == SphereDensity()
    ensures !mat.Lambertian? && !mat.Isotropic? ==> r == 0.0
  {
    match mat
    case Lambertian(_) =>
      var cosTheta := LambertianCosine(m, rec, scattered);
      QuotientSign(cosTheta, Pi);
      if cosTheta < 0.0 then 0.0 else cosTheta / Pi
    case Isotropic(_) => SphereDensity()
    case _ => 0.0
  }

  /** A vector of length one is its own normalisation. */
  lemma UnitVectorOfUnit(m: Libm, n: Vec3)
    requires m.Lawful() && LengthSquared(n) == 1.0
    ensures n != Zero && UnitVector(m, n) == n
  {
    assert n != Zero;
    var s := Length(m, n);
    LengthSquaredIsSquare(m, n);
    assert s * s == 1.0;
    SqrtAtMostOne(s, 1.0);
    if s < 1.0 {
      var k := PositiveProduct(1.0 - s, 1.0 + s);
    }
    var r := UnitVector(m, n);
    assert Scale(1.0, r) == r;
  }

  /** A Lambertian surface with a unit normal scatters with the density of
      the cosine PDF it hands out: `scattering_pdf` equals the value of
      `CosinePdf::new(rec.normal)` in the scattered direction. */
  lemma LambertianMatchesCosinePdf(m: Libm, albedo: Texture, rIn: Ray, rec: HitRecord, scattered: Ray)
    requires m.Lawful() && LengthSquared(rec.normal) == 1.0 && scattered.dir != Zero
    ensures ScatteringPdf(m, Lambertian(albedo), rIn, rec, scattered)
         == Value(m, NewCosine(m, rec.normal), scattered.dir)
  {
    UnitVectorOfUnit(m, rec.normal);
    var d := UnitVector(m, scattered.dir);
    DotSymmetric(rec.normal, d);
    var c := LambertianCosine(m, rec, scattered);
    QuotientSign(c, Pi);
  }

  /** `Dielectric::reflactance`: Schlick's approximation, `r0` plus
      `(1 - r0) (1 - cosine)^5` with `r0 = ((1 - ri) / (1 + ri))^2`. */
  function Reflectance(m: Libm, cosine: real, refIdx: real): (r: real)
    requires refIdx > 0.0
    ensures r == R0(refIdx) + (1.0 - R0(refIdx)) * m.powf(1.0 - cosine, 5.0)
  {
    var r0 := (1.0 - refIdx) / (1.0 + refIdx);
    var r0 := r0 * r0;
    r0 + (1.0 - r0) * m.powf(1.0 - cosine, 5.0)
  }

  /** The reflectance at normal incidence. */
  function R0(refIdx: real): (r0: real)
    requires refIdx > 0.0
    ensures 0.0 <= r0 < 1.0
    ensures r0 == 0.0 <==> refIdx == 1.0
  {
    var q := (1.0 - refIdx) / (1.0 + refIdx);
    R0Bounds(refIdx, q);
    q * q
  }

  lemma R0Bounds(refIdx: real, q: real)
    requires refIdx > 0.0 && q == (1.0 - refIdx) / (1.0 + refIdx)
    ensures 0.0 <= q * q < 1.0 && (q * q == 0.0 <==> refIdx == 1.0)
  {
    var d := 1.0 + refIdx;
    assert q * d == 1.0 - refIdx;
    // |q| < 1 because |1 - refIdx| < 1 + refIdx.
    if q >= 1.0 {
      var k := NonNegativeProduct(q - 1.0, d);
      assert false;
    }
    if q <= -1.0 {
      var k := NonNegativeProduct(-1.0 - q, d);
      assert false;
    }
    var a := Abs(q);
    var aa := NonNegativeProduct(a, a);
    assert aa == q * q;
    var s := PositiveProduct(1.0 - a, 1.0 + a);
    if q == 0.0 {
      assert refIdx == 1.0;
    } else {
      var t := Square(q);
    }
  }

  /** Whenever the power term lies in [0, 1], Schlick's reflectance lies
      between `r0` and 1. */
  lemma ReflectanceBounds(m: Libm, cosine: real, refIdx: real)
    requires refIdx > 0.0 && 0.0 <= m.powf(1.0 - cosine, 5.0) <= 1.0
    ensures R0(refIdx) <= Reflectance(m, cosine, refIdx) <= 1.0
  {
    var r0, p := R0(refIdx), m.powf(1.0 - cosine, 5.0);
    var k := NonNegativeProduct(1.0 - r0, p);
    var j := NonNegativeProduct(1.0 - r0, 1.0 - p);
  }

  /** The refraction ratio: `1 / ir` on the front face, `ir` behind it. */
  function RefractionRatio(ir: real, frontFace: bool): (r: real)
    requires ir > 0.0
    ensures r > 0.0
    ensures frontFace ==> r * ir == 1.0
    ensures !frontFace ==> r == ir
  {
    if frontFace then 1.0 / ir else ir
  }

  /** `cos_theta`: `dot(-unit_direction, normal)` capped at 1. */
  function CosTheta(m: Libm, rIn: Ray, rec: HitRecord): (c: real)
    requires m.Lawful() && rIn.dir != Zero
    ensures c <= 1.0
    ensures Dot(Neg(UnitVector(m, rIn.dir)), rec.normal) >= -1.0 ==> c >= -1.0
  {
    Floats.Min(Dot(Neg(UnitVector(m, rIn.dir)), rec.normal), 1.0)
  }

  /** `sin_theta`: `sqrt(1 - cos_theta^2)`. */
  function SinTheta(m: Libm, rIn: Ray, rec: HitRecord): (s: real)
    requires m.Lawful() && rIn.dir != Zero
    ensures CosTheta(m, rIn, rec) >= -1.0 ==> s >= 0.0
    ensures CosTheta(m, rIn, rec) >= -1.0 ==> s <= 1.0
  {
    var c := CosTheta(m, rIn, rec);
    SineAtMostOne(m, c);
    m.sqrt(1.0 - c * c)
  }

  /** Total internal reflection: with the refraction ratio and the sine of
      the incidence angle, Snell's law has no solution. */
  predicate CannotRefract(ratio: real, sinTheta: real)
  {
    ratio * sinTheta > 1.0
  }

  /** The dielectric reflects when it cannot refract or when the draw `u`
      falls below Schlick's reflectance; otherwise it refracts. */
  predicate Reflects(m: Libm, ir: real, rIn: Ray, rec: HitRecord, u: real)
    requires m.Lawful() && ir > 0.0 && rIn.dir != Zero
  {
    CannotRefract(RefractionRatio(ir, rec.frontFace), SinTheta(m, rIn, rec))
    || Reflectance(m, CosTheta(m, rIn, rec), RefractionRatio(ir, rec.frontFace)) > u
  }

  /** `scatter` for each material, given the accepted point `inSphere` of
      `random_in_unit_sphere` (metal) and the draw `u` of `random_double`
      (dielectric). Lambertian surfaces and isotropic media hand out a
      density (the cosine PDF around the normal, the sphere PDF) and leave
      `skip_pdf_ray` alone; metals and dielectrics skip the density and
      write a ray from the hit point at the incoming ray's time; a diffuse
      light keeps the trait default: no scattering, the record untouched. */
  function Scatter(m: Libm, mat: Material, rIn: Ray, rec: HitRecord, srec: ScatterRecord, inSphere: Vec3, u: real)
    : (res: (bool, ScatterRecord))
    requires m.Lawful() && 0.0 <= u < 1.0
    requires mat.Lambertian? ==> rec.normal != Zero
    requires mat.Metal? || mat.Dielectric? ==> rIn.dir != Zero
    requires mat.Dielectric? ==> mat.ir > 0.0
    ensures res.0 <==> !mat.DiffuseLight?
    ensures !res.0 ==> res.1 == srec
    ensures res.0 ==> (res.1.skipPdf <==> mat.Metal? || mat.Dielectric?)
    ensures res.0 ==> (res.1.pdfPtr.Some? <==> !res.1.skipPdf)
    ensures res.0 && !res.1.skipPdf ==> res.1.skipPdfRay == srec.skipPdfRay
    ensures res.0 && res.1.skipPdf ==> res.1.skipPdfRay.orig == rec.p && res.1.skipPdfRay.tm == rIn.tm
    ensures mat.Lambertian? ==> (res.1.attenuation == mat.albedo(rec.u, rec.v, rec.p)
      && res.1.pdfPtr == Some(NewCosine(m, rec.normal)))
    ensures mat.Isotropic? ==> (res.1.attenuation == mat.albedo(rec.u, rec.v, rec.p)
      && res.1.pdfPtr == Some(SpherePdf))
    ensures mat.Metal? ==> (res.1.attenuation == mat.colour
      && res.1.skipPdfRay.dir == Add(Reflect(UnitVector(m, rIn.dir), rec.normal), Scale(mat.fuzz, inSphere)))
    ensures mat.Dielectric? ==> (res.1.attenuation == White
      && res.1.skipPdfRay.dir == (if Reflects(m, mat.ir, rIn, rec, u)
                                  then Reflect(UnitVector(m, rIn.dir), rec.normal)
                                  else Refract(m, UnitVector(m, rIn.dir), rec.normal, RefractionRatio(mat.ir, rec.frontFace))))
  {
    match mat
    case Lambertian(albedo) =>
      (true, srec.(attenuation := albedo(rec.u, rec.v, rec.p), pdfPtr := Some(NewCosine(m, rec.normal)), skipPdf := false))
    case Metal(colour, fuzz) =>
      var reflected := Reflect(UnitVector(m, rIn.dir), rec.normal);
      (true, srec.(attenuation := colour, pdfPtr := None, skipPdf := true,
                   skipPdfRay := WithOriginDirectionAndTime(rec.p, Add(reflected, Scale(fuzz, inSphere)), rIn.tm)))
    case Dielectric(ir) =>
      var refractionRatio := RefractionRatio(ir, rec.frontFace);
      var unitDirection := UnitVector(m, rIn.dir);
      var direction :=
        if Reflects(m, ir, rIn, rec, u) then Reflect(unitDirection, rec.normal)
        else Refract(m, unitDirection, rec.normal, refractionRatio);
      (true, srec.(attenuation := White, pdfPtr := None, skipPdf := true,
                   skipPdfRay := WithOriginDirectionAndTime(rec.p, direction, rIn.tm)))
    case DiffuseLight(_) => (false, srec)
    case Isotropic(albedo) =>
      (true, srec.(attenuation := albedo(rec.u, rec.v, rec.p), pdfPtr := Some(SpherePdf), skipPdf := false))
  }

  /** Total internal reflection always reflects, whatever the draw. */
  lemma TotalInternalReflection(m: Libm, ir: real, rIn: Ray, rec: HitRecord, srec: ScatterRecord, inSphere: Vec3, u: real)
    requires m.Lawful() && 0.0 <= u < 1.0 && rIn.dir != Zero && ir > 0.0
    requires CannotRefract(RefractionRatio(ir, rec.frontFace), SinTheta(m, rIn, rec))
    ensures Scatter(m, Dielectric(ir), rIn, rec, srec, inSphere, u).1.skipPdfRay.dir
         == Reflect(UnitVector(m, rIn.dir), rec.normal)
  {
  }

  /** Entering a denser medium (front face, `ir >= 1`) with a unit normal
      never meets total internal reflection. */
  lemma EnteringCanRefract(m: Libm, ir: real, rIn: Ray, rec: HitRecord)
    requires m.Lawful() && rIn.dir != Zero && ir >= 1.0 && rec.frontFace && LengthSquared(rec.normal) == 1.0
    ensures !CannotRefract(RefractionRatio(ir, rec.frontFace), SinTheta(m, rIn, rec))
  {
    SineBound(m, rIn, rec);
    RatioAtMostOne(RefractionRatio(ir, rec.frontFace), ir);
    NoTotalReflection(RefractionRatio(ir, rec.frontFace), SinTheta(m, rIn, rec));
  }

  lemma SineBound(m: Libm, rIn: Ray, rec: HitRecord)
    requires m.Lawful() && rIn.dir != Zero && LengthSquared(rec.normal) == 1.0
    ensures 0.0 <= SinTheta(m, rIn, rec) <= 1.0
  {
    CosineOfUnits(m, rIn, rec);
  }

  lemma NoTotalReflection(ratio: real, s: real)
    requires 0.0 < ratio <= 1.0 && 0.0 <= s <= 1.0
    ensures !CannotRefract(ratio, s)
  {
    ProductAtMostOne(ratio, s);
  }

  /** With a unit normal the cosine of incidence is at least -1. */
  lemma CosineOfUnits(m: Libm, rIn: Ray, rec: HitRecord)
    requires m.Lawful() && rIn.dir != Zero && LengthSquared(rec.normal) == 1.0
    ensures CosTheta(m, rIn, rec) >= -1.0
  {
    var unit := UnitVector(m, rIn.dir);
    UnitVectorIsUnit(m, rIn.dir);
    NegLength(unit);
    CauchySchwarzUnit(Neg(unit), rec.normal);
  }

  lemma ProductAtMostOne(a: real, b: real)
    requires 0.0 <= a <= 1.0 && 0.0 <= b <= 1.0
    ensures a * b <= 1.0
  {
    var w := NonNegativeProduct(a, 1.0 - b);
  }

  /** `sqrt(1 - c^2)` lies in [0, 1] for a cosine in [-1, 1]. */
  lemma SineAtMostOne(m: Libm, c: real)
    requires m.Lawful() && c <= 1.0
    ensures -1.0 <= c ==> 0.0 <= m.sqrt(1.0 - c * c) <= 1.0
  {
    if -1.0 <= c {
      SineInRange(m, c);
    }
  }

  lemma SineInRange(m: Libm, c: real)
    requires m.Lawful() && -1.0 <= c <= 1.0
    ensures 0.0 <= m.sqrt(1.0 - c * c) <= 1.0
  {
    var cc := CosineSquareAtMostOne(c);
    var s := m.sqrt(1.0 - cc);
    assert s >= 0.0;
    assert s * s == 1.0 - cc;
    SqrtAtMostOne(s, 1.0 - cc);
  }

  /** Two unit vectors have a dot product in [-1, 1]. */
  lemma CauchySchwarzUnit(a: Vec3, b: Vec3)
    requires LengthSquared(a) == 1.0 && LengthSquared(b) == 1.0
    ensures -1.0 <= Dot(a, b) <= 1.0
  {
    CrossLengthSquared(a, b);
    var d := Dot(a, b);
    var la, lb := LengthSquared(a), LengthSquared(b);
    assert la * lb == 1.0;
    var dd := Square(d);
    assert dd <= 1.0;
    if d > 1.0 {
      var k := PositiveProduct(d - 1.0, d + 1.0);
    }
    if d < -1.0 {
      var k := PositiveProduct(-1.0 - d, 1.0 - d);
    }
  }

  /** `Neg` keeps the squared length. */
  lemma NegLength(v: Vec3)
    ensures LengthSquared(Neg(v)) == LengthSquared(v)
  {
  }

  lemma CosineSquareAtMostOne(c: real) returns (cc: real)
    requires -1.0 <= c <= 1.0
    ensures cc == c * c && 0.0 <= cc <= 1.0
  {
    cc := Square(c);
    var k := NonNegativeProduct(1.0 - c, 1.0 + c);
  }

  lemma SqrtAtMostOne(s: real, x: real)
    requires s >= 0.0 && s * s == x && x <= 1.0
    ensures s <= 1.0
  {
    if s > 1.0 {
      var k := PositiveProduct(s - 1.0, s + 1.0);
    }
  }

  lemma RatioAtMostOne(ratio: real, ir: real)
    requires ratio > 0.0 && ir >= 1.0 && ratio * ir == 1.0
    ensures ratio <= 1.0
  {
    var k := NonNegativeProduct(ratio, ir - 1.0);
  }

  /** A metal without fuzz is a mirror: the scattered direction is the
      reflection of the unit incoming direction, so for a unit normal its
      normal component is flipped. */
  lemma MetalMirror(m: Libm, colour: Vec3, rIn: Ray, rec: HitRecord, srec: ScatterRecord, inSphere: Vec3, u: real)
    requires m.Lawful() && 0.0 <= u < 1.0 && rIn.dir != Zero && LengthSquared(rec.normal) == 1.0
    ensures var dir := Scatter(m, Metal(colour, 0.0), rIn, rec, srec, inSphere, u).1.skipPdfRay.dir;
      Dot(dir, rec.normal) == -Dot(UnitVector(m, rIn.dir), rec.normal)
  {
    var reflected := Reflect(UnitVector(m, rIn.dir), rec.normal);
    ScaleByConstants(inSphere);
    assert Add(reflected, Scale(0.0, inSphere)) == reflected;
    ReflectUnit(UnitVector(m, rIn.dir), rec.normal);
  }

  /** The fuzz moves the mirror direction by less than the fuzz. */
  lemma MetalFuzz(m: Libm, colour: Vec3, fuzz: real, rIn: Ray, rec: HitRecord, srec: ScatterRecord, inSphere: Vec3, u: real)
    requires m.Lawful() && 0.0 <= u < 1.0 && rIn.dir != Zero && LengthSquared(inSphere) < 1.0
    ensures var dir := Scatter(m, Metal(colour, fuzz), rIn, rec, srec, inSphere, u).1.skipPdfRay.dir;
      LengthSquared(Sub(dir, Reflect(UnitVector(m, rIn.dir), rec.normal))) <= fuzz * fuzz
  {
    var reflected := Reflect(UnitVector(m, rIn.dir), rec.normal);
    assert Scatter(m, Metal(colour, fuzz), rIn, rec, srec, inSphere, u).1.skipPdfRay.dir == Add(reflected, Scale(fuzz, inSphere));
    FuzzOffset(reflected, fuzz, inSphere);
  }

  /** Adding `fuzz` times a point of the unit ball moves a vector by less
      than `fuzz`. */
  lemma FuzzOffset(reflected: Vec3, fuzz: real, inSphere: Vec3)
    requires LengthSquared(inSphere) < 1.0
    ensures LengthSquared(Sub(Add(reflected, Scale(fuzz, inSphere)), reflected)) <= fuzz * fuzz
  {
    var dir := Add(reflected, Scale(fuzz, inSphere));
    assert Sub(dir, reflected) == Scale(fuzz, inSphere) by {
      ExtensionalAt(Sub(dir, reflected), Scale(fuzz, inSphere));
    }
    ScaleLengthSquared(fuzz, inSphere);
    var ff := Square(fuzz);
    var l := LengthSquared(inSphere);
    var k := NonNegativeProduct(ff, 1.0 - l);
  }
}
