/** Spheres of the nalgebra generation (src/sphere.rs): the still sphere and
    the sphere whose centre moves linearly between two times. Both solve the
    same quadratic; `HitCentered` is that shared computation. */
module Spheres {
  import opened Floats
  import opened Vectors
  import opened Rays
  import opened Aabb
  import opened Shapes

  datatype Sphere = Sphere(center: Vec3, radius: real, material: MaterialRef)

  datatype MovingSphere = MovingSphere(center0: Vec3, center1: Vec3, time0: real, time1: real,
                                       radius: real, material: MaterialRef)

  /** The half-b form of the quadratic `a t^2 + 2 b t + c = 0` whose roots
      are the distances at which `ray` meets the sphere. */
  function A(ray: Ray): real { Dot(ray.dir, ray.dir) }
  function B(center: Vec3, ray: Ray): real { Dot(Sub(ray.orig, center), ray.dir) }
  function C(center: Vec3, radius: real, ray: Ray): real
  {
    Dot(Sub(ray.orig, center), Sub(ray.orig, center)) - radius * radius
  }
  function Discriminant(center: Vec3, radius: real, ray: Ray): real
  {
    B(center, ray) * B(center, ray) - A(ray) * C(center, radius, ray)
  }

  /** `|u|^2 |v|^2 = (u . v)^2 + |u x v|^2`. */
  lemma Lagrange(u: Vec3, v: Vec3)
    ensures LengthSquared(u) * LengthSquared(v) == Dot(u, v) * Dot(u, v) + LengthSquared(Cross(u, v))
  {
  }

  /** A zero direction gives a zero discriminant. */
  lemma ZeroDirection(center: Vec3, radius: real, ray: Ray)
    ensures ray.dir == Zero ==> Discriminant(center, radius, ray) == 0.0
  {
  }

  /** A zero radius gives a discriminant of at most zero (Cauchy-Schwarz). */
  lemma ZeroRadius(center: Vec3, ray: Ray)
    ensures Discriminant(center, 0.0, ray) <= 0.0
  {
    var oc := Sub(ray.orig, center);
    Lagrange(oc, ray.dir);
    DotSymmetric(oc, oc);
    assert C(center, 0.0, ray) == LengthSquared(oc);
    assert A(ray) * C(center, 0.0, ray) == LengthSquared(ray.dir) * LengthSquared(oc);
  }

  /** A positive discriminant rules out a zero direction and a zero radius,
      so both divisions of `hit` are defined. */
  lemma PositiveDiscriminant(center: Vec3, radius: real, ray: Ray)
    requires Discriminant(center, radius, ray) > 0.0
    ensures A(ray) > 0.0 && radius != 0.0
  {
    ZeroDirection(center, radius, ray);
    ZeroRadius(center, ray);
    if ray.dir != Zero {
      LengthSquaredPositive(ray.dir);
    }
  }

  /** `(-b - sqrt(discriminant)) / a`, tried first. */
  function NearRoot(m: Libm, center: Vec3, radius: real, ray: Ray): real
    requires Discriminant(center, radius, ray) > 0.0
  {
    PositiveDiscriminant(center, radius, ray);
    (-B(center, ray) - m.sqrt(Discriminant(center, radius, ray))) / A(ray)
  }

  /** `(-b + sqrt(discriminant)) / a`, tried second. */
  function FarRoot(m: Libm, center: Vec3, radius: real, ray: Ray): real
    requires Discriminant(center, radius, ray) > 0.0
  {
    PositiveDiscriminant(center, radius, ray);
    (-B(center, ray) + m.sqrt(Discriminant(center, radius, ray))) / A(ray)
  }

  /** The record built for a root `t`: the ray point and the outward normal
      `(p - center) / radius`. The literal in the source names no `u`, `v`;
      they are 0 here. */
  function RecordAt(center: Vec3, radius: real, material: MaterialRef, ray: Ray, t: real): (r: Hit)
    requires radius != 0.0
    ensures r.t == t && r.p == ray.At(t) && r.material == material
    ensures Scale(radius, r.normal) == Sub(r.p, center)
  {
    var p := ray.At(t);
    var n := Div(Sub(p, center), radius);
    assert forall i :: 0 <= i < 3 ==> radius * n.At(i) == Sub(p, center).At(i);
    ExtensionalAt(Scale(radius, n), Sub(p, center));
    Hit(t, p, n, 0.0, 0.0, material)
  }

  /** The body shared by `Sphere::hit` and `MovingSphere::hit`: a hit needs a
      positive discriminant; the near root is returned when it lies strictly
      inside (`t_min`, `t_max`), and only otherwise the far one. */
  function HitCentered(m: Libm, center: Vec3, radius: real, material: MaterialRef, ray: Ray, tMin: real, tMax: real): (r: Option<Hit>)
    ensures r.Some? <==> (Discriminant(center, radius, ray) > 0.0 &&
      (tMin < NearRoot(m, center, radius, ray) < tMax || tMin < FarRoot(m, center, radius, ray) < tMax))
    ensures r.Some? ==> tMin < r.value.t < tMax
    ensures r.Some? ==> radius != 0.0 && r.value == RecordAt(center, radius, material, ray, r.value.t)
    ensures r.Some? ==> (r.value.t == NearRoot(m, center, radius, ray) || r.value.t == FarRoot(m, center, radius, ray))
    ensures r.Some? && tMin < NearRoot(m, center, radius, ray) < tMax ==> r.value.t == NearRoot(m, center, radius, ray)
  {
    if Discriminant(center, radius, ray) > 0.0 then
      PositiveDiscriminant(center, radius, ray);
      var t := NearRoot(m, center, radius, ray);
      if t < tMax && t > tMin then Some(RecordAt(center, radius, material, ray, t))
      else
        var t := FarRoot(m, center, radius, ray);
        if t < tMax && t > tMin then Some(RecordAt(center, radius, material, ray, t))
        else None
    else None
  }

  /** `a t^2 + 2 b t + c = 0` at both roots `(-b -+ s) / a`, `s^2 = b^2 - a c`. */
  lemma QuadraticRoot(a: real, b: real, c: real, s: real, t: real)
    requires a != 0.0 && s * s == b * b - a * c
    requires t == (-b - s) / a || t == (-b + s) / a
    ensures a * (t * t) + 2.0 * b * t + c == 0.0
  {
    var at := a * t;
    assert at == -b - s || at == -b + s;
    assert at * at + 2.0 * b * at + a * c == 0.0;
    assert a * (a * (t * t) + 2.0 * b * t + c) == at * at + 2.0 * b * at + a * c;
  }

  /** The squared distance from the centre to the ray point at `t`. */
  lemma DistanceAt(center: Vec3, radius: real, ray: Ray, t: real)
    ensures LengthSquared(Sub(ray.At(t), center))
      == A(ray) * (t * t) + 2.0 * B(center, ray) * t + C(center, radius, ray) + radius * radius
  {
    var oc := Sub(ray.orig, center);
    var q := Sub(ray.At(t), center);
    assert q == Add(oc, Scale(t, ray.dir));
  }

  /** Both roots are on the sphere: the ray point there is `radius` away
      from the centre. */
  lemma RootsOnSphere(m: Libm, center: Vec3, radius: real, ray: Ray)
    requires m.Lawful() && Discriminant(center, radius, ray) > 0.0
    ensures LengthSquared(Sub(ray.At(NearRoot(m, center, radius, ray)), center)) == radius * radius
    ensures LengthSquared(Sub(ray.At(FarRoot(m, center, radius, ray)), center)) == radius * radius
  {
    PositiveDiscriminant(center, radius, ray);
    var d := Discriminant(center, radius, ray);
    var s := m.sqrt(d);
    assert s * s == d;
    var a, b, c := A(ray), B(center, ray), C(center, radius, ray);
    QuadraticRoot(a, b, c, s, NearRoot(m, center, radius, ray));
    QuadraticRoot(a, b, c, s, FarRoot(m, center, radius, ray));
    DistanceAt(center, radius, ray, NearRoot(m, center, radius, ray));
    DistanceAt(center, radius, ray, FarRoot(m, center, radius, ray));
  }

  /** The near root is never after the far one (`a > 0`), so when both are in
      range the smaller is returned. */
  lemma NearBeforeFar(m: Libm, center: Vec3, radius: real, ray: Ray)
    requires m.Lawful() && Discriminant(center, radius, ray) > 0.0
    ensures NearRoot(m, center, radius, ray) < FarRoot(m, center, radius, ray)
  {
    PositiveDiscriminant(center, radius, ray);
    var d := Discriminant(center, radius, ray);
    SqrtPositive(m, d);
    var s, a, b := m.sqrt(d), A(ray), B(center, ray);
    var k := PositiveProduct(2.0 * s, 1.0 / a);
    assert (-b + s) / a - (-b - s) / a == (2.0 * s) * (1.0 / a);
  }

  /** On a hit the normal has unit length. */
  lemma HitNormalIsUnit(m: Libm, center: Vec3, radius: real, material: MaterialRef, ray: Ray, tMin: real, tMax: real)
    requires m.Lawful()
    requires HitCentered(m, center, radius, material, ray, tMin, tMax).Some?
    ensures LengthSquared(HitCentered(m, center, radius, material, ray, tMin, tMax).value.normal) == 1.0
  {
    var h := HitCentered(m, center, radius, material, ray, tMin, tMax).value;
    RootsOnSphere(m, center, radius, ray);
    assert LengthSquared(Sub(h.p, center)) == radius * radius;
    UnitAfterScaling(radius, h.normal, Sub(h.p, center));
  }

  /** `Sphere::hit`. */
  function SphereHit(m: Libm, s: Sphere, ray: Ray, tMin: real, tMax: real): (r: Option<Hit>)
    ensures r.Some? ==> tMin < r.value.t < tMax && r.value.material == s.material
    ensures r.Some? ==> r.value.p == ray.At(r.value.t) && Scale(s.radius, r.value.normal) == Sub(r.value.p, s.center)
    ensures r.Some? <==> HitCentered(m, s.center, s.radius, s.material, ray, tMin, tMax).Some?
  {
    HitCentered(m, s.center, s.radius, s.material, ray, tMin, tMax)
  }

  /** The box `[center - r, center + r]` on each axis. */
  function CenteredBox(center: Vec3, radius: real): (r: Box)
    ensures forall i :: 0 <= i < 3 ==> r.max.At(i) - r.min.At(i) == 2.0 * radius
    ensures forall i :: 0 <= i < 3 ==> r.min.At(i) + r.max.At(i) == 2.0 * center.At(i)
  {
    var rv := Vec3(radius, radius, radius);
    Box(Sub(center, rv), Add(center, rv))
  }

  /** `Sphere::bounding_box`, whatever the times. */
  function SphereBoundingBox(s: Sphere, t0: real, t1: real): (r: Option<Box>)
    ensures r == Some(CenteredBox(s.center, s.radius))
  {
    Some(CenteredBox(s.center, s.radius))
  }

  /** Beyond `r >= 0` squares grow past `r^2`. */
  lemma SquareAbove(x: real, r: real)
    requires r >= 0.0 && x > r
    ensures x * x > r * r
  {
    var k := PositiveProduct(x - r, x + r);
    assert k == x * x - r * r;
  }

  /** `x^2 <= r^2` with `r >= 0` bounds `x` by `r` in size. */
  lemma SquareBound(x: real, r: real)
    requires r >= 0.0
    ensures x * x <= r * r ==> -r <= x <= r
  {
    if x > r {
      SquareAbove(x, r);
    } else if x < -r {
      SquareAbove(-x, r);
      assert (-x) * (-x) == x * x;
    }
  }

  /** One squared component is at most the squared length. */
  lemma ComponentSquare(q: Vec3, i: nat)
    requires i < 3
    ensures q.At(i) * q.At(i) <= LengthSquared(q)
  {
    var kx := Square(q.x);
    var ky := Square(q.y);
    var kz := Square(q.z);
  }

  /** A sphere of non-negative radius lies in its box. */
  lemma SphereInsideBox(s: Sphere, p: Vec3)
    requires s.radius >= 0.0 && LengthSquared(Sub(p, s.center)) == s.radius * s.radius
    ensures Inside(CenteredBox(s.center, s.radius), p)
  {
    var q := Sub(p, s.center);
    var bx := CenteredBox(s.center, s.radius);
    forall i | 0 <= i < 3
      ensures bx.min.At(i) <= p.At(i) <= bx.max.At(i)
    {
      ComponentSquare(q, i);
      SquareBound(q.At(i), s.radius);
      assert bx.min.At(i) == s.center.At(i) - s.radius && bx.max.At(i) == s.center.At(i) + s.radius;
    }
  }

  /** The hit points of a sphere of non-negative radius are in its box. */
  lemma SphereHitInBox(m: Libm, s: Sphere, ray: Ray, tMin: real, tMax: real)
    requires m.Lawful() && s.radius >= 0.0 && SphereHit(m, s, ray, tMin, tMax).Some?
    ensures Inside(CenteredBox(s.center, s.radius), SphereHit(m, s, ray, tMin, tMax).value.p)
  {
    RootsOnSphere(m, s.center, s.radius, ray);
    SphereInsideBox(s, SphereHit(m, s, ray, tMin, tMax).value.p);
  }

  function SphereShape(m: Libm, s: Sphere): (sh: Shape)
    ensures forall ray, tMin, tMax :: sh.hit(ray, tMin, tMax).Some? ==>
              tMin < sh.hit(ray, tMin, tMax).value.t < tMax && sh.hit(ray, tMin, tMax).value.material == s.material
    ensures forall t0, t1 :: sh.boundingBox(t0, t1) == Some(CenteredBox(s.center, s.radius))
  {
    Shape((ray, tMin, tMax) => SphereHit(m, s, ray, tMin, tMax), (t0, t1) => SphereBoundingBox(s, t0, t1))
  }

  /** `MovingSphere::center`: linear in time between the two centres. The
      source divides by `time1 - time0`, so equal times are excluded. */
  function Center(s: MovingSphere, time: real): (r: Vec3)
    requires s.time1 != s.time0
    ensures s.center0 == s.center1 ==> r == s.center0
  {
    Add(s.center0, Scale((time - s.time0) / (s.time1 - s.time0), Sub(s.center1, s.center0)))
  }

  /** The centre is `center0` at `time0` and `center1` at `time1`. */
  lemma CenterAtEndpoints(s: MovingSphere)
    requires s.time1 != s.time0
    ensures Center(s, s.time0) == s.center0 && Center(s, s.time1) == s.center1
  {
    var d := Sub(s.center1, s.center0);
    assert (s.time0 - s.time0) / (s.time1 - s.time0) == 0.0;
    assert (s.time1 - s.time0) / (s.time1 - s.time0) == 1.0;
    ExtensionalAt(Scale(0.0, d), Zero);
    ExtensionalAt(Add(s.center0, Zero), s.center0);
    ExtensionalAt(Scale(1.0, d), d);
    ExtensionalAt(Add(s.center0, d), s.center1);
  }

  /** `MovingSphere::hit`: the still sphere's test at the centre for the
      ray's time. */
  function MovingSphereHit(m: Libm, s: MovingSphere, ray: Ray, tMin: real, tMax: real): (r: Option<Hit>)
    requires s.time1 != s.time0
    ensures r.Some? ==> tMin < r.value.t < tMax && r.value.material == s.material
    ensures r.Some? ==> Scale(s.radius, r.value.normal) == Sub(r.value.p, Center(s, ray.tm))
    ensures r == SphereHit(m, Sphere(Center(s, ray.tm), s.radius, s.material), ray, tMin, tMax)
  {
    HitCentered(m, Center(s, ray.tm), s.radius, s.material, ray, tMin, tMax)
  }

  /** `MovingSphere::bounding_box`: the union of the boxes at `t0` and `t1`. */
  function MovingSphereBoundingBox(s: MovingSphere, t0: real, t1: real): (r: Option<Box>)
    requires s.time1 != s.time0
    ensures r.Some?
    ensures Within(CenteredBox(Center(s, t0), s.radius), r.value)
    ensures Within(CenteredBox(Center(s, t1), s.radius), r.value)
    ensures r == Some(SurroundingBox(CenteredBox(Center(s, t0), s.radius), CenteredBox(Center(s, t1), s.radius)))
  {
    Some(SurroundingBox(CenteredBox(Center(s, t0), s.radius), CenteredBox(Center(s, t1), s.radius)))
  }

  function MovingSphereShape(m: Libm, s: MovingSphere): (sh: Shape)
    requires s.time1 != s.time0
    ensures forall ray, tMin, tMax :: sh.hit(ray, tMin, tMax).Some? ==>
              tMin < sh.hit(ray, tMin, tMax).value.t < tMax && sh.hit(ray, tMin, tMax).value.material == s.material
    ensures forall t0, t1 :: sh.boundingBox(t0, t1).Some? && Within(CenteredBox(Center(s, t0), s.radius), sh.boundingBox(t0, t1).value)
              && Within(CenteredBox(Center(s, t1), s.radius), sh.boundingBox(t0, t1).value)
  {
    Shape((ray, tMin, tMax) => MovingSphereHit(m, s, ray, tMin, tMax), (t0, t1) => MovingSphereBoundingBox(s, t0, t1))
  }
}
