/** The object list of the `Interval` generation (src/hittable_list.rs):
    a growing vector of objects with the union of their boxes. */
module HittableLists {
  import opened Floats
  import opened ExtReals
  import opened Vectors
  import opened Rays
  import opened Intervals
  import opened Boxes
  import opened Scene
  import opened Utils

  /** The locals of the loop in `hit`: `hit_anything`, `closest_so_far`,
      the caller's `rec` and `temp_rec`. */
  datatype ScanState = ScanState(hitAnything: bool, closest: ExtReal, rec: HitRecord, temp: HitRecord)

  /** The state before the loop: nothing hit, the bound at `ray_t.max`, a
      fresh `temp_rec`. */
  function Start(rayT: Interval, rec: HitRecord): ScanState
  {
    ScanState(false, rayT.max, rec, NewRecord())
  }

  /** The range object `o` is asked about: from `ray_t.min` up to the
      closest hit so far. */
  function QueryRange(rayT: Interval, s: ScanState): Interval
  {
    Interval(rayT.min, s.closest)
  }

  /** One iteration: the object writes into `temp_rec` whether it hits or
      not; on a hit the bound drops to its `t` and the caller's record
      becomes a copy of `temp_rec`. */
  function Query(o: Hittable, r: Ray, rayT: Interval, s: ScanState): (s': ScanState)
    ensures s'.hitAnything == (s.hitAnything || o.hit(r, QueryRange(rayT, s), s.temp).0)
    ensures s'.temp == o.hit(r, QueryRange(rayT, s), s.temp).1
    ensures o.hit(r, QueryRange(rayT, s), s.temp).0 ==> s'.rec == s'.temp && s'.closest == Fin(s'.rec.t)
    ensures !o.hit(r, QueryRange(rayT, s), s.temp).0 ==> s'.rec == s.rec && s'.closest == s.closest
  {
    var (hit, temp) := o.hit(r, QueryRange(rayT, s), s.temp);
    if hit then ScanState(true, Fin(temp.t), temp, temp) else s.(temp := temp)
  }

  /** The state after the loop has gone over `objs` in order. */
  function Scan(objs: seq<Hittable>, r: Ray, rayT: Interval, rec: HitRecord): ScanState
  {
    if objs == [] then Start(rayT, rec)
    else Query(objs[|objs| - 1], r, rayT, Scan(objs[..|objs| - 1], r, rayT, rec))
  }

  /** Object `i` reported a hit when its turn came. */
  predicate Reported(objs: seq<Hittable>, r: Ray, rayT: Interval, rec: HitRecord, i: nat)
    requires i < |objs|
  {
    objs[i].hit(r, QueryRange(rayT, Scan(objs[..i], r, rayT, rec)), Scan(objs[..i], r, rayT, rec).temp).0
  }

  /** The `t` object `i` recorded when its turn came. */
  function ReportedT(objs: seq<Hittable>, r: Ray, rayT: Interval, rec: HitRecord, i: nat): real
    requires i < |objs|
  {
    objs[i].hit(r, QueryRange(rayT, Scan(objs[..i], r, rayT, rec)), Scan(objs[..i], r, rayT, rec).temp).1.t
  }

  lemma ScanStep(objs: seq<Hittable>, r: Ray, rayT: Interval, rec: HitRecord, i: nat)
    requires i < |objs|
    ensures Scan(objs[..i + 1], r, rayT, rec) == Query(objs[i], r, rayT, Scan(objs[..i], r, rayT, rec))
  {
    assert objs[..i + 1][..i] == objs[..i];
  }

  /** `hit` is true exactly when some object reported a hit, and the
      caller's record is left alone when none did. */
  lemma {:induction false} HitIffReported(objs: seq<Hittable>, r: Ray, rayT: Interval, rec: HitRecord)
    ensures Scan(objs, r, rayT, rec).hitAnything <==> exists i :: 0 <= i < |objs| && Reported(objs, r, rayT, rec, i)
    ensures !Scan(objs, r, rayT, rec).hitAnything ==> Scan(objs, r, rayT, rec).rec == rec
    ensures Scan(objs, r, rayT, rec).hitAnything ==> Scan(objs, r, rayT, rec).closest == Fin(Scan(objs, r, rayT, rec).rec.t)
  {
    if objs != [] {
      var n := |objs| - 1;
      var front := objs[..n];
      HitIffReported(front, r, rayT, rec);
      ScanStep(objs, r, rayT, rec, n);
      assert objs[..n + 1] == objs;
      forall i | 0 <= i < n ensures Reported(objs, r, rayT, rec, i) == Reported(front, r, rayT, rec, i) {
        assert objs[..i] == front[..i];
      }
      if Reported(objs, r, rayT, rec, n) {
        assert Scan(objs, r, rayT, rec).hitAnything;
      } else if Scan(front, r, rayT, rec).hitAnything {
        var i :| 0 <= i < n && Reported(front, r, rayT, rec, i);
        assert Reported(objs, r, rayT, rec, i);
      }
    }
  }

  /** With objects that keep to the range they are asked about, a recorded
      hit is in `ray_t`, and so is the bound. */
  lemma {:induction false} ScanInRange(objs: seq<Hittable>, r: Ray, rayT: Interval, rec: HitRecord)
    requires forall k :: 0 <= k < |objs| ==> Respects(objs[k])
    ensures Scan(objs, r, rayT, rec).hitAnything ==> rayT.Contains(Scan(objs, r, rayT, rec).rec.t)
    ensures Le(Scan(objs, r, rayT, rec).closest, rayT.max)
  {
    if objs != [] {
      var n := |objs| - 1;
      var front := objs[..n];
      ScanInRange(front, r, rayT, rec);
      HitIffReported(objs, r, rayT, rec);
      var s := Scan(front, r, rayT, rec);
      if objs[n].hit(r, QueryRange(rayT, s), s.temp).0 {
        assert Respects(objs[n]);
        LeTransitive(Scan(objs, r, rayT, rec).closest, s.closest, rayT.max);
      }
    }
  }

  /** With objects that keep to the range they are asked about, the bound
      never rises above `ray_t.max` or above an earlier bound. */
  lemma {:induction false} ClosestNeverIncreases(objs: seq<Hittable>, r: Ray, rayT: Interval, rec: HitRecord, i: nat, j: nat)
    requires forall k :: 0 <= k < |objs| ==> Respects(objs[k])
    requires i <= j <= |objs|
    ensures Le(Scan(objs[..j], r, rayT, rec).closest, Scan(objs[..i], r, rayT, rec).closest)
    ensures Le(Scan(objs[..j], r, rayT, rec).closest, rayT.max)
    decreases j
  {
    if j > 0 {
      ClosestNeverIncreases(objs, r, rayT, rec, if i == j then i - 1 else i, j - 1);
      ScanStep(objs, r, rayT, rec, j - 1);
      var s := Scan(objs[..j - 1], r, rayT, rec);
      var s' := Scan(objs[..j], r, rayT, rec);
      assert Le(s'.closest, s.closest) by {
        if objs[j - 1].hit(r, QueryRange(rayT, s), s.temp).0 {
          assert Respects(objs[j - 1]);
        }
      }
      LeTransitive(s'.closest, s.closest, rayT.max);
      if i < j {
        LeTransitive(s'.closest, s.closest, Scan(objs[..i], r, rayT, rec).closest);
      }
    } else {
      assert objs[..0] == [];
    }
  }

  /** With objects that keep to the range they are asked about, the record
      `hit` leaves is in `ray_t` and no farther than any hit reported on
      the way. */
  lemma ScanFindsClosest(objs: seq<Hittable>, r: Ray, rayT: Interval, rec: HitRecord)
    requires forall k :: 0 <= k < |objs| ==> Respects(objs[k])
    ensures var s := Scan(objs, r, rayT, rec);
      s.hitAnything ==> rayT.Contains(s.rec.t)
    ensures var s := Scan(objs, r, rayT, rec);
      forall i :: 0 <= i < |objs| && Reported(objs, r, rayT, rec, i) ==> s.rec.t <= ReportedT(objs, r, rayT, rec, i)
  {
    var s := Scan(objs, r, rayT, rec);
    var n := |objs|;
    assert objs[..n] == objs;
    HitIffReported(objs, r, rayT, rec);
    forall i | 0 <= i < n && Reported(objs, r, rayT, rec, i) ensures s.rec.t <= ReportedT(objs, r, rayT, rec, i) {
      ScanStep(objs, r, rayT, rec, i);
      ClosestNeverIncreases(objs, r, rayT, rec, i + 1, n);
    }
    ScanInRange(objs, r, rayT, rec);
  }

  /** The sum of the objects' `pdf_value(o, v)`. */
  function PdfSum(objs: seq<Hittable>, o: Vec3, v: Vec3): real
  {
    if objs == [] then 0.0 else PdfSum(objs[..|objs| - 1], o, v) + objs[|objs| - 1].pdfValue(o, v)
  }

  /** The arithmetic mean of the objects' `pdf_value(o, v)`, 0 for no
      objects. */
  function PdfMean(objs: seq<Hittable>, o: Vec3, v: Vec3): real
  {
    if objs == [] then 0.0 else PdfSum(objs, o, v) / |objs| as real
  }

  /** The mean of equal values is that value, and the mean of
      non-negative values is non-negative. */
  lemma PdfMeanBounds(objs: seq<Hittable>, o: Vec3, v: Vec3, c: real)
    ensures (forall k :: 0 <= k < |objs| ==> objs[k].pdfValue(o, v) == c) ==> PdfSum(objs, o, v) == |objs| as real * c
    ensures (forall k :: 0 <= k < |objs| ==> objs[k].pdfValue(o, v) >= 0.0) ==> PdfSum(objs, o, v) >= 0.0
    ensures (forall k :: 0 <= k < |objs| ==> objs[k].pdfValue(o, v) == c) && objs != [] ==> PdfMean(objs, o, v) == c
    ensures (forall k :: 0 <= k < |objs| ==> objs[k].pdfValue(o, v) >= 0.0) ==> PdfMean(objs, o, v) >= 0.0
  {
    var n, s := |objs| as real, PdfSum(objs, o, v);
    if forall k :: 0 <= k < |objs| ==> objs[k].pdfValue(o, v) == c {
      PdfSumOfEqual(objs, o, v, c);
      if objs != [] {
        QuotientOfProduct(s, n, c);
      }
    }
    if forall k :: 0 <= k < |objs| ==> objs[k].pdfValue(o, v) >= 0.0 {
      PdfSumNonNegative(objs, o, v);
      if objs != [] {
        QuotientNonNegative(s, n);
      }
    }
  }

  lemma {:induction false} PdfSumOfEqual(objs: seq<Hittable>, o: Vec3, v: Vec3, c: real)
    requires forall k :: 0 <= k < |objs| ==> objs[k].pdfValue(o, v) == c
    ensures PdfSum(objs, o, v) == |objs| as real * c
  {
    if objs != [] {
      var front := objs[..|objs| - 1];
      assert forall k :: 0 <= k < |front| ==> front[k] == objs[k];
      PdfSumOfEqual(front, o, v, c);
      var n := |objs| as real;
      assert (n - 1.0) * c + c == n * c;
    }
  }

  lemma {:induction false} PdfSumNonNegative(objs: seq<Hittable>, o: Vec3, v: Vec3)
    requires forall k :: 0 <= k < |objs| ==> objs[k].pdfValue(o, v) >= 0.0
    ensures PdfSum(objs, o, v) >= 0.0
  {
    if objs != [] {
      var front := objs[..|objs| - 1];
      assert forall k :: 0 <= k < |front| ==> front[k] == objs[k];
      PdfSumNonNegative(front, o, v);
    }
  }

  lemma QuotientOfProduct(s: real, n: real, c: real)
    requires n > 0.0 && s == n * c
    ensures s / n == c
  {
    var q := s / n;
    assert q * n == s;
    assert (q - c) * n == q * n - c * n;
    if q > c {
      var k := PositiveProduct(q - c, n);
    } else if q < c {
      var k := PositiveProduct(c - q, n);
    }
  }

  lemma QuotientNonNegative(s: real, n: real)
    requires s >= 0.0 && n > 0.0
    ensures s / n >= 0.0
  {
    var q := s / n;
    assert q * n == s;
    if q < 0.0 {
      var k := PositiveProduct(-q, n);
    }
  }

  /** `HittableList`: the objects and the union of the boxes added. */
  class HittableList {
    var objects: seq<Hittable>
    var bbox: Bounds

    /** `HittableList::new()`: no objects, the empty box. */
    constructor ()
      ensures objects == [] && bbox == NoBounds
    {
      objects := [];
      bbox := NoBounds;
    }

    /** `add`: the object goes at the end, and the box grows to take in
        the object's box. */
    method Add(obj: Hittable)
      modifies this
      ensures objects == old(objects) + [obj]
      ensures bbox == Union(old(bbox), obj.bbox)
      ensures forall p :: old(bbox).Holds(p) || obj.bbox.Holds(p) ==> bbox.Holds(p)
    {
      objects := objects + [obj];
      bbox := Union(bbox, obj.bbox);
    }

    /** `clear`: the objects go, the box stays as it was. */
    method Clear()
      modifies this
      ensures objects == [] && bbox == old(bbox)
    {
      objects := [];
    }

    /** `hit`: every object is asked in order, each with the range up to
        the closest hit so far. */
    method Hit(r: Ray, rayT: Interval, rec: HitRecord) returns (hitAnything: bool, rec': HitRecord)
      ensures hitAnything == Scan(objects, r, rayT, rec).hitAnything
      ensures rec' == Scan(objects, r, rayT, rec).rec
    {
      var tempRec := NewRecord();
      hitAnything := false;
      var closestSoFar := rayT.max;
      rec' := rec;
      for i := 0 to |objects|
        invariant ScanState(hitAnything, closestSoFar, rec', tempRec) == Scan(objects[..i], r, rayT, rec)
      {
        ScanStep(objects, r, rayT, rec, i);
        var (hit, temp) := objects[i].hit(r, Interval(rayT.min, closestSoFar), tempRec);
        tempRec := temp;
        if hit {
          hitAnything := true;
          closestSoFar := Fin(tempRec.t);
          rec' := tempRec;
        }
      }
      assert objects[..|objects|] == objects;
    }

    /** `bounding_box`: the box kept by `add`, which `clear` does not
        reset. */
    function BoundingBox(): (b: Bounds)
      reads this
      ensures b == bbox
    {
      bbox
    }

    /** `pdf_value`: `1 / len` times each object's value, summed in order;
        the mean of the objects' values (0 for an empty list, where the
        source's infinite weight is never used). */
    method PdfValue(o: Vec3, v: Vec3) returns (sum: real)
      ensures sum == PdfMean(objects, o, v)
    {
      var n := |objects|;
      var weight: real := if n > 0 then 1.0 / n as real else 0.0;
      sum := 0.0;
      for i := 0 to n
        invariant sum == weight * PdfSum(objects[..i], o, v)
      {
        assert objects[..i + 1][..i] == objects[..i];
        sum := sum + weight * objects[i].pdfValue(o, v);
      }
      assert objects[..n] == objects;
    }

    /** `random`: the object at the index `random_double_in_range(0, len)`
        truncates to, for the uniform draw `u`; an empty list makes the
        source's range empty and panics. */
    method Random(o: Vec3, u: real) returns (r: Vec3, index: nat)
      requires |objects| > 0 && 0.0 <= u < 1.0
      ensures index < |objects| && r == objects[index].random(o)
      ensures index == RandomDoubleInRange(0.0, |objects| as real, u).Floor
    {
      var initSize := |objects|;
      var x := RandomDoubleInRange(0.0, initSize as real, u);
      index := x.Floor;
      r := objects[index].random(o);
    }
  }
}
