/** Boxes made of six rectangles (src/cube.rs). */
module Cubes {
  import opened Vectors
  import opened Rays
  import opened Aabb
  import opened Shapes
  import opened Rects

  datatype Cube = Cube(pMin: Vec3, pMax: Vec3, sides: seq<Rect>)

  /** `Cube::new`: the two `XY` faces at `z = p_max.z` and `z = p_min.z`,
      the two `ZX` faces at `y = p_max.y` and `y = p_min.y` (spanning z, then
      x) and the two `YZ` faces at `x = p_max.x` and `x = p_min.x` (spanning
      y, then z), in that order, all with the cube's material. */
  function NewCube(pMin: Vec3, pMax: Vec3, material: MaterialRef): (c: Cube)
    ensures c.pMin == pMin && c.pMax == pMax && |c.sides| == 6
    ensures forall i :: 0 <= i < 6 ==> c.sides[i].material == material
    ensures Ordered(pMin, pMax) ==> forall i :: 0 <= i < 6 ==> InRectInBox(c.sides[i], pMin, pMax)
    ensures c.sides[0].k == pMax.z && c.sides[1].k == pMin.z
    ensures c.sides[2].k == pMax.y && c.sides[3].k == pMin.y
    ensures c.sides[4].k == pMax.x && c.sides[5].k == pMin.x
    ensures c.sides[0].plane == c.sides[1].plane == XY
    ensures c.sides[2].plane == c.sides[3].plane == ZX
    ensures c.sides[4].plane == c.sides[5].plane == YZ
    ensures StrictlyOrdered(pMin, pMax) ==> forall i :: 0 <= i < 6 ==> NonDegenerate(c.sides[i])
  {
    var sides := [
      Rect(XY, pMin.x, pMin.y, pMax.x, pMax.y, pMax.z, material),
      Rect(XY, pMin.x, pMin.y, pMax.x, pMax.y, pMin.z, material),
      Rect(ZX, pMin.z, pMin.x, pMax.z, pMax.x, pMax.y, material),
      Rect(ZX, pMin.z, pMin.x, pMax.z, pMax.x, pMin.y, material),
      Rect(YZ, pMin.y, pMin.z, pMax.y, pMax.z, pMax.x, material),
      Rect(YZ, pMin.y, pMin.z, pMax.y, pMax.z, pMin.x, material)];
    assert Ordered(pMin, pMax) ==> forall i :: 0 <= i < 6 ==> InRectInBox(sides[i], pMin, pMax) by {
      if Ordered(pMin, pMax) {
        forall i | 0 <= i < 6 ensures InRectInBox(sides[i], pMin, pMax) {
          forall p | InRect(sides[i], p) ensures Inside(Box(pMin, pMax), p) {
            SideInBox(sides[i], pMin, pMax, p);
          }
        }
      }
    }
    Cube(pMin, pMax, sides)
  }

  /** A rectangle spanning a cube face, with its plane inside the cube's
      range on the normal axis, holds only points of the cube. */
  lemma SideInBox(r: Rect, pMin: Vec3, pMax: Vec3, p: Vec3)
    requires InRect(r, p)
    requires var (ka, aa, ba) := Axes(r.plane);
      pMin.At(ka) <= r.k <= pMax.At(ka) && r.x0 == pMin.At(aa) && r.x1 == pMax.At(aa)
      && r.y0 == pMin.At(ba) && r.y1 == pMax.At(ba)
    ensures Inside(Box(pMin, pMax), p)
  {
    var (ka, aa, ba) := Axes(r.plane);
    forall i | 0 <= i < 3 ensures pMin.At(i) <= p.At(i) <= pMax.At(i) {
      assert i == ka || i == aa || i == ba;
    }
  }

  /** No component of `pMin` is above the same component of `pMax`. */
  predicate Ordered(pMin: Vec3, pMax: Vec3)
  {
    pMin.x <= pMax.x && pMin.y <= pMax.y && pMin.z <= pMax.z
  }

  /** Every component of `pMin` is below the same component of `pMax`. */
  predicate StrictlyOrdered(pMin: Vec3, pMax: Vec3)
  {
    pMin.x < pMax.x && pMin.y < pMax.y && pMin.z < pMax.z
  }

  /** Every point of the rectangle lies in the box `[pMin, pMax]`. */
  ghost predicate InRectInBox(r: Rect, pMin: Vec3, pMax: Vec3)
  {
    forall p :: InRect(r, p) ==> Inside(Box(pMin, pMax), p)
  }

  predicate AllNonDegenerate(sides: seq<Rect>)
  {
    forall i :: 0 <= i < |sides| ==> NonDegenerate(sides[i])
  }

  /** The closest-hit query over a list of rectangles, which the cube's
      `sides` list answers (its `hit` is not part of this model): each side is
      asked in turn with the distance found so far as the new upper bound, so
      the result is the nearest accepted crossing, the later side winning a
      tie. */
  function ListHit(sides: seq<Rect>, ray: Ray, tMin: real, tMax: real): (r: Option<Hit>)
    requires AllNonDegenerate(sides)
    ensures r.Some? ==> exists i :: 0 <= i < |sides| && RectHit(sides[i], ray, tMin, tMax) == r
    ensures r.Some? ==> tMin <= r.value.t <= tMax
    ensures forall i :: 0 <= i < |sides| && RectHit(sides[i], ray, tMin, tMax).Some? ==>
              r.Some? && r.value.t <= RectHit(sides[i], ray, tMin, tMax).value.t
  {
    ListHitFrom(sides, 0, ray, tMin, tMax)
  }

  /** `ListHit` over the sides from index `k` on. */
  function ListHitFrom(sides: seq<Rect>, k: nat, ray: Ray, tMin: real, tMax: real): (r: Option<Hit>)
    requires AllNonDegenerate(sides) && k <= |sides|
    ensures r.Some? ==> exists i :: k <= i < |sides| && RectHit(sides[i], ray, tMin, tMax) == r
    ensures r.Some? ==> tMin <= r.value.t <= tMax
    ensures forall i :: k <= i < |sides| && RectHit(sides[i], ray, tMin, tMax).Some? ==>
              r.Some? && r.value.t <= RectHit(sides[i], ray, tMin, tMax).value.t
    decreases |sides| - k
  {
    if k == |sides| then None
    else
      match RectHit(sides[k], ray, tMin, tMax)
      case None => ListHitFrom(sides, k + 1, ray, tMin, tMax)
      case Some(h) =>
        var closer := ListHitFrom(sides, k + 1, ray, tMin, h.t);
        Narrowing(sides, ray, tMin, h.t, tMax);
        if closer.Some? then closer else Some(h)
  }

  /** Lowering the upper bound to `t` keeps exactly the crossings at or
      before `t`, unchanged. */
  lemma Narrowing(sides: seq<Rect>, ray: Ray, tMin: real, t: real, tMax: real)
    requires AllNonDegenerate(sides) && t <= tMax
    ensures forall i :: 0 <= i < |sides| ==>
      (RectHit(sides[i], ray, tMin, t).Some? <==>
        RectHit(sides[i], ray, tMin, tMax).Some? && RectHit(sides[i], ray, tMin, tMax).value.t <= t)
    ensures forall i :: 0 <= i < |sides| && RectHit(sides[i], ray, tMin, t).Some? ==>
      RectHit(sides[i], ray, tMin, t) == RectHit(sides[i], ray, tMin, tMax)
  {
  }

  /** `Cube::hit`: the closest hit among the six sides. */
  function CubeHit(c: Cube, ray: Ray, tMin: real, tMax: real): (r: Option<Hit>)
    requires AllNonDegenerate(c.sides)
    ensures r.Some? ==> tMin <= r.value.t <= tMax
    ensures r.Some? ==> exists i :: 0 <= i < |c.sides| && RectHit(c.sides[i], ray, tMin, tMax) == r
    ensures r.None? <==> forall i :: 0 <= i < |c.sides| ==> RectHit(c.sides[i], ray, tMin, tMax).None?
    ensures forall i :: 0 <= i < |c.sides| && RectHit(c.sides[i], ray, tMin, tMax).Some? ==>
              r.Some? && r.value.t <= RectHit(c.sides[i], ray, tMin, tMax).value.t
    ensures r == ListHit(c.sides, ray, tMin, tMax)
  {
    ListHit(c.sides, ray, tMin, tMax)
  }

  /** `Cube::bounding_box`: the two corners, whatever the times. */
  function CubeBoundingBox(c: Cube, t0: real, t1: real): (r: Option<Box>)
    ensures r.Some? && r.value.min == c.pMin && r.value.max == c.pMax
  {
    Some(Box(c.pMin, c.pMax))
  }

  /** Every hit on a cube built by `Cube::new` lies in its bounding box. */
  lemma CubeHitInBox(pMin: Vec3, pMax: Vec3, material: MaterialRef, ray: Ray, tMin: real, tMax: real, t0: real, t1: real)
    requires StrictlyOrdered(pMin, pMax)
    ensures var c := NewCube(pMin, pMax, material);
      CubeHit(c, ray, tMin, tMax).Some? ==>
        Inside(CubeBoundingBox(c, t0, t1).value, CubeHit(c, ray, tMin, tMax).value.p)
  {
    var c := NewCube(pMin, pMax, material);
    var r := CubeHit(c, ray, tMin, tMax);
    if r.Some? {
      var i :| 0 <= i < |c.sides| && RectHit(c.sides[i], ray, tMin, tMax) == r;
      assert InRect(c.sides[i], r.value.p);
      assert InRectInBox(c.sides[i], pMin, pMax);
    }
  }

  function CubeShape(c: Cube): (sh: Shape)
    requires AllNonDegenerate(c.sides)
    ensures forall ray, tMin, tMax :: sh.hit(ray, tMin, tMax).Some? ==> tMin <= sh.hit(ray, tMin, tMax).value.t <= tMax
    ensures forall ray, tMin, tMax :: sh.hit(ray, tMin, tMax).None? <==>
              forall i :: 0 <= i < |c.sides| ==> RectHit(c.sides[i], ray, tMin, tMax).None?
    ensures forall t0, t1 :: sh.boundingBox(t0, t1) == Some(Box(c.pMin, c.pMax))
  {
    Shape((ray, tMin, tMax) => CubeHit(c, ray, tMin, tMax), (t0, t1) => CubeBoundingBox(c, t0, t1))
  }
}
