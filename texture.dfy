/** Textures (src/texture.rs): a solid colour, a checker pattern that picks
    one of two textures by the sign of a product of sines, marble-like
    Perlin turbulence, and an RGB image looked up by `(u, v)`. */
module Textures {
  import opened Floats
  import opened Vectors
  import opened Perlins
  import Scene

  /** A `u8` of the image data. */
  newtype byte = x: int | 0 <= x < 256

  /** A `u32` image dimension. */
  type u32 = x: nat | x < 0x1_0000_0000

  /** The four `Texture` implementations, by their stored fields. */
  datatype Texture =
    | Solid(color: Vec3)
    | Checker(odd: Texture, even: Texture)
    | NoiseTexture(noise: Perlin, scale: real)
    | Image(data: seq<byte>, nx: u32, ny: u32)

  /** Every noise texture holds well-formed Perlin tables. */
  predicate Valid(tex: Texture)
  {
    match tex
    case Checker(odd, even) => Valid(odd) && Valid(even)
    case NoiseTexture(noise, _) => WellFormed(noise)
    case _ => true
  }

  /** Every image is at least one pixel wide and high and holds exactly
      three bytes per pixel. */
  predicate Sized(tex: Texture)
  {
    match tex
    case Checker(odd, even) => Sized(odd) && Sized(even)
    case Image(data, nx, ny) => nx >= 1 && ny >= 1 && |data| == 3 * (nx * ny)
    case _ => true
  }

  /** Every solid colour has its components in `[0, 1]`. */
  predicate SolidsInUnitCube(tex: Texture)
  {
    match tex
    case Solid(c) => InUnitCube(c)
    case Checker(odd, even) => SolidsInUnitCube(odd) && SolidsInUnitCube(even)
    case _ => true
  }

  predicate InUnitCube(c: Vec3)
  {
    0.0 <= c.x <= 1.0 && 0.0 <= c.y <= 1.0 && 0.0 <= c.z <= 1.0
  }

  /** `SolidTexture::new(r, g, b)`. */
  function NewSolid(r: real, g: real, b: real): (tex: Texture)
    ensures tex.Solid? && tex.color == Vec3(r, g, b)
  {
    Solid(Vec3(r, g, b))
  }

  /** `CheckerTexture::new(odd, even)`. */
  function NewChecker(odd: Texture, even: Texture): (tex: Texture)
    ensures tex.Checker? && tex.odd == odd && tex.even == even
  {
    Checker(odd, even)
  }

  /** `ImageTexture::new(data, nx, ny)`. */
  function NewImage(data: seq<byte>, nx: u32, ny: u32): (tex: Texture)
    ensures tex.Image? && tex.data == data && tex.nx == nx && tex.ny == ny
  {
    Image(data, nx, ny)
  }

  /** `NoiseTexture::new(scale)`, with the draws `Perlin::new` consumes. */
  method NewNoise(m: Libm, draws: seq<Vec3>, scale: real) returns (tex: Texture)
    requires m.Lawful() && |draws| == PointCount
    requires forall n :: 0 <= n < |draws| ==> IsDraw(draws[n]) && RandomInRange(-1.0, 1.0, draws[n]) != Zero
    ensures tex.NoiseTexture? && tex.scale == scale && Valid(tex)
    ensures tex.noise.permX == Identity(PointCount) && tex.noise.permY == Identity(PointCount) && tex.noise.permZ == Identity(PointCount)
  {
    var noise := NewPerlin(m, draws);
    tex := NoiseTexture(noise, scale);
  }

  /** The product of sines whose sign decides the checker square. */
  function SineProduct(m: Libm, p: Vec3): real
  {
    m.sin(10.0 * p.x) * m.sin(10.0 * p.y) * m.sin(10.0 * p.z)
  }

  /** The depth 7 of the turbulence behind the noise texture. */
  function TurbDepth(): nat
  {
    7
  }

  /** The grey level `0.5 (1 + sin(scale p.x + 5 turb))` of the noise
      texture: a sine shifted into `[0, 2]` and halved. */
  function Shade(m: Libm, scale: real, p: Vec3, turb: real): (s: real)
    requires m.Lawful()
    ensures 0.0 <= s <= 1.0
  {
    (1.0 + m.sin(scale * p.x + 5.0 * turb)) * 0.5
  }

  /** `NoiseTexture::value` once `turb(p, 7)` is known:
      `(1, 1, 1) * 0.5 * (1 + sin(scale p.x + 5 turb))`, a grey in the unit
      cube. */
  function NoiseColor(m: Libm, scale: real, p: Vec3, turb: real): (c: Vec3)
    requires m.Lawful()
    ensures c.x == c.y == c.z == Shade(m, scale, p, turb)
    ensures InUnitCube(c)
  {
    var a := 1.0 + m.sin(scale * p.x + 5.0 * turb);
    var s := Shade(m, scale, p, turb);
    Grey(a);
    assert a * 0.5 == s;
    Scale(a, Scale(0.5, Vec3(1.0, 1.0, 1.0)))
  }

  /** `(1, 1, 1) * 0.5 * a` is the grey `a / 2`. */
  lemma Grey(a: real)
    ensures Scale(a, Scale(0.5, Vec3(1.0, 1.0, 1.0))) == Vec3(a * 0.5, a * 0.5, a * 0.5)
  {
  }

  /** The `NoiseTexture::value` computation, with `turb` the loop. */
  method NoiseValue(m: Libm, noise: Perlin, scale: real, p: Vec3) returns (c: Vec3)
    requires m.Lawful() && WellFormed(noise)
    ensures c == NoiseColor(m, scale, p, TurbOf(noise, p, TurbDepth()))
  {
    var turb := Turb(noise, p, TurbDepth());
    c := NoiseColor(m, scale, p, turb);
  }

  /** `y as usize` clamped to `n - 1`, where `y` is `u * nx` (or
      `(1 - v) * ny`): the pixel column (or row). Negative products saturate to 0
      and products past the image to its last pixel. */
  function Pixel(y: real, n: u32): (r: nat)
    requires n >= 1
    ensures r < n
    ensures y < 1.0 ==> r == 0
    ensures 0.0 <= y < n as real ==> r == y.Floor
    ensures y >= (n - 1) as real ==> r == n - 1
  {
    var c := CastUsize(y);
    if c > n - 1 then n - 1 else c
  }

  /** The first of the three bytes of the pixel `(u, v)`; rows run from the
      top, so the row comes from `1 - v`. */
  function PixelIndex(nx: u32, ny: u32, u: real, v: real): (idx: nat)
    requires nx >= 1 && ny >= 1
    ensures idx % 3 == 0 && idx + 2 < 3 * (nx * ny)
  {
    var i, j := Pixel(u * nx as real, nx), Pixel((1.0 - v) * ny as real, ny);
    RowMajorBound(nx, ny, i, j);
    3 * i + 3 * nx * j
  }

  /** Pixel `(i, j)` of an `nx` by `ny` image lies inside it. */
  lemma RowMajorBound(nx: nat, ny: nat, i: nat, j: nat)
    requires i < nx && j < ny
    ensures 3 * i + 3 * nx * j == 3 * (i + nx * j) && i + nx * j < nx * ny
  {
    assert 3 * nx * j == 3 * (nx * j);
    assert nx * j <= nx * (ny - 1) by {
      MulMonotone(nx, j, ny - 1);
    }
    assert nx * (ny - 1) == nx * ny - nx;
  }

  lemma MulMonotone(a: nat, b: nat, c: nat)
    requires b <= c
    ensures a * b <= a * c
  {
    assert a * c == a * b + a * (c - b);
  }

  /** A byte as a colour component, `b as f64 / 255.0`. */
  function Intensity(b: byte): (r: real)
    ensures 0.0 <= r <= 1.0
    ensures r == 0.0 <==> b == 0
    ensures r == 1.0 <==> b == 255
  {
    b as real / 255.0
  }

  /** `ImageTexture::value`. An empty image panics on `nx - 1` (or
      `ny - 1`), and data too short for the pixel panics on the read; both
      give `None`. The colour read is in the unit cube. */
  function ImageColor(data: seq<byte>, nx: u32, ny: u32, u: real, v: real): (r: Option<Vec3>)
    ensures r.Some? <==> nx >= 1 && ny >= 1 && PixelIndex(nx, ny, u, v) + 2 < |data|
    ensures r.Some? ==> InUnitCube(r.value)
  {
    if nx == 0 || ny == 0 then None
    else
      var idx := PixelIndex(nx, ny, u, v);
      if idx + 2 < |data| then Some(Vec3(Intensity(data[idx]), Intensity(data[idx + 1]), Intensity(data[idx + 2])))
      else None
  }

  /** With three bytes per pixel the reads are in bounds for every
      `(u, v)`, and the colour is the pixel's three bytes. */
  lemma ImageReadsInBounds(data: seq<byte>, nx: u32, ny: u32, u: real, v: real)
    requires nx >= 1 && ny >= 1 && |data| == 3 * (nx * ny)
    ensures ImageColor(data, nx, ny, u, v).Some?
    ensures var idx := PixelIndex(nx, ny, u, v);
      ImageColor(data, nx, ny, u, v).value == Vec3(Intensity(data[idx]), Intensity(data[idx + 1]), Intensity(data[idx + 2]))
  {
  }

  /** Texture coordinates outside `[0, 1]` read the nearest edge pixel. */
  lemma ImageClampsToEdge(nx: u32, ny: u32, u: real, v: real)
    requires nx >= 1 && ny >= 1
    ensures u <= 0.0 && v >= 1.0 ==> PixelIndex(nx, ny, u, v) == 0
    ensures u >= 1.0 && v <= 0.0 ==> PixelIndex(nx, ny, u, v) == 3 * (nx - 1) + 3 * nx * (ny - 1)
  {
    if u <= 0.0 {
      assert u * nx as real <= 0.0 by {
        var k := NonNegativeProduct(-u, nx as real);
      }
    }
    if v >= 1.0 {
      assert (1.0 - v) * ny as real <= 0.0 by {
        var k := NonNegativeProduct(v - 1.0, ny as real);
      }
    }
    if u >= 1.0 {
      assert u * nx as real >= (nx - 1) as real by {
        var k := NonNegativeProduct(u - 1.0, nx as real);
      }
    }
    if v <= 0.0 {
      assert (1.0 - v) * ny as real >= (ny - 1) as real by {
        var k := NonNegativeProduct(-v, ny as real);
      }
    }
  }

  /** The `ImageTexture::value` computation: `i` and `j` are cast and then
      clamped in place. */
  method ImageValue(data: seq<byte>, nx: u32, ny: u32, u: real, v: real) returns (r: Option<Vec3>)
    ensures r == ImageColor(data, nx, ny, u, v)
  {
    if nx == 0 || ny == 0 {
      return None;
    }
    var i := CastUsize(u * nx as real);
    var j := CastUsize((1.0 - v) * ny as real);
    if i > nx - 1 {
      i := nx - 1;
    }
    if j > ny - 1 {
      j := ny - 1;
    }
    var idx := 3 * i + 3 * nx * j;
    assert idx == PixelIndex(nx, ny, u, v);
    if idx + 2 >= |data| {
      return None;
    }
    var red := Intensity(data[idx]);
    var green := Intensity(data[idx + 1]);
    var blue := Intensity(data[idx + 2]);
    r := Some(Vec3(red, green, blue));
  }

  /** `Texture::value` for each texture; `None` where the image lookup
      panics. */
  function Value(m: Libm, tex: Texture, u: real, v: real, p: Vec3): (r: Option<Vec3>)
    requires m.Lawful() && Valid(tex)
    ensures tex.Solid? ==> r == Some(tex.color)
    ensures tex.NoiseTexture? ==> r.Some? && r.value.x == r.value.y == r.value.z && InUnitCube(r.value)
    ensures tex.Image? ==> (r.Some? ==> InUnitCube(r.value))
  {
    match tex
    case Solid(c) => Some(c)
    case Checker(odd, even) =>
      if SineProduct(m, p) < 0.0 then Value(m, odd, u, v, p) else Value(m, even, u, v, p)
    case NoiseTexture(noise, scale) => Some(NoiseColor(m, scale, p, TurbOf(noise, p, TurbDepth())))
    case Image(data, nx, ny) => ImageColor(data, nx, ny, u, v)
  }

  /** A solid texture has the same colour at every `(u, v, p)`. */
  lemma SolidIgnoresCoordinates(m: Libm, c: Vec3, u: real, v: real, p: Vec3, u': real, v': real, p': Vec3)
    requires m.Lawful()
    ensures Value(m, Solid(c), u, v, p) == Value(m, Solid(c), u', v', p') == Some(c)
  {
  }

  /** At a point with integer coordinates the turbulence vanishes, so the
      noise texture is the plain stripe `0.5 (1 + sin(scale p.x))`. */
  lemma NoiseAtLatticePoint(m: Libm, noise: Perlin, scale: real, u: real, v: real, p: Vec3)
    requires m.Lawful() && WellFormed(noise) && IsLattice(p)
    ensures Value(m, NoiseTexture(noise, scale), u, v, p) == Some(NoiseColor(m, scale, p, 0.0))
  {
    TurbAtLattice(noise, p, TurbDepth());
  }

  /** A checker is its odd texture where the sine product is negative and
      its even texture everywhere else. */
  lemma CheckerChoice(m: Libm, odd: Texture, even: Texture, u: real, v: real, p: Vec3)
    requires m.Lawful() && Valid(odd) && Valid(even)
    ensures SineProduct(m, p) < 0.0 ==> Value(m, Checker(odd, even), u, v, p) == Value(m, odd, u, v, p)
    ensures SineProduct(m, p) >= 0.0 ==> Value(m, Checker(odd, even), u, v, p) == Value(m, even, u, v, p)
  {
  }

  /** A texture whose images are all sized never panics. */
  lemma {:induction false} ValueDefined(m: Libm, tex: Texture, u: real, v: real, p: Vec3)
    requires m.Lawful() && Valid(tex) && Sized(tex)
    ensures Value(m, tex, u, v, p).Some?
  {
    match tex
    case Checker(odd, even) =>
      ValueDefined(m, odd, u, v, p);
      ValueDefined(m, even, u, v, p);
    case Image(data, nx, ny) =>
      ImageReadsInBounds(data, nx, ny, u, v);
    case _ =>
  }

  /** Noise and images give colours in the unit cube, so a texture whose
      solid colours are in it stays in it. */
  lemma {:induction false} ValueInUnitCube(m: Libm, tex: Texture, u: real, v: real, p: Vec3)
    requires m.Lawful() && Valid(tex) && SolidsInUnitCube(tex)
    ensures Value(m, tex, u, v, p).Some? ==> InUnitCube(Value(m, tex, u, v, p).value)
  {
    match tex
    case Checker(odd, even) =>
      ValueInUnitCube(m, odd, u, v, p);
      ValueInUnitCube(m, even, u, v, p);
    case _ =>
  }

  /** `value` as the program evaluates it: each texture dispatches to its
      own computation, the checker to one of its two parts. */
  method Evaluate(m: Libm, tex: Texture, u: real, v: real, p: Vec3) returns (r: Option<Vec3>)
    requires m.Lawful() && Valid(tex)
    ensures r == Value(m, tex, u, v, p)
  {
    match tex
    case Solid(c) =>
      r := Some(c);
    case Checker(odd, even) =>
      var sin := m.sin(10.0 * p.x) * m.sin(10.0 * p.y) * m.sin(10.0 * p.z);
      assert sin == SineProduct(m, p);
      CheckerChoice(m, odd, even, u, v, p);
      if sin < 0.0 {
        r := Evaluate(m, odd, u, v, p);
      } else {
        r := Evaluate(m, even, u, v, p);
      }
    case NoiseTexture(noise, scale) =>
      var c := NoiseValue(m, noise, scale, p);
      r := Some(c);
    case Image(data, nx, ny) =>
      r := ImageValue(data, nx, ny, u, v);
  }

  /** A texture that never panics as the `Arc<dyn Texture>` the materials
      hold. */
  function AsTexture(m: Libm, tex: Texture): (t: Scene.Texture)
    requires m.Lawful() && Valid(tex) && Sized(tex)
    ensures forall u, v, p :: Value(m, tex, u, v, p) == Some(t(u, v, p))
  {
    DefinedEverywhere(m, tex);
    (u: real, v: real, p: Vec3) => Value(m, tex, u, v, p).value
  }

  lemma DefinedEverywhere(m: Libm, tex: Texture)
    requires m.Lawful() && Valid(tex) && Sized(tex)
    ensures forall u, v, p :: Value(m, tex, u, v, p).Some?
  {
    forall u, v, p {
      ValueDefined(m, tex, u, v, p);
    }
  }

  /** A solid texture seen by a material is `Scene.SolidColor`. */
  lemma SolidAsTexture(m: Libm, c: Vec3)
    requires m.Lawful()
    ensures forall u, v, p :: AsTexture(m, Solid(c))(u, v, p) == Scene.SolidColor(c)(u, v, p)
  {
  }
}
