/** Bounding-volume hierarchies of the nalgebra generation (src/bvh.rs).
    The objects are shapes in a table; the slice `BVHNode::new` sorts and
    splits is an array of indices into that table. */
module Bvh {
  import opened Vectors
  import opened Rays
  import opened Aabb
  import opened Shapes

  datatype Ordering = Less | Equal | Greater

  /** A child of a node: an object of the table, or a nested node. */
  datatype Child = Leaf(id: nat) | Inner(node: BvhNode)

  /** `BVHNode { left, right, bbox }`. */
  datatype BvhNode = BvhNode(left: Child, right: Child, bbox: Box)

  /** Every index is an entry of the table. */
  predicate ValidIds(table: seq<Shape>, ids: seq<nat>)
  {
    forall k :: 0 <= k < |ids| ==> ids[k] < |table|
  }

  /** Every object named in `ids` has a box for the times `t0` to `t1`. */
  predicate AllBoxed(table: seq<Shape>, ids: seq<nat>, t0: real, t1: real)
    requires ValidIds(table, ids)
  {
    forall k :: 0 <= k < |ids| ==> table[ids[k]].boundingBox(t0, t1).Some?
  }

  /** The closure `box_compare(time0, time1, axis)` returns: `Less` exactly
      when the first box starts below the second on `axis`, `Greater`
      otherwise (never `Equal`); `None` stands for its panic on a missing
      box. */
  function BoxCompare(table: seq<Shape>, t0: real, t1: real, axis: nat, x: nat, y: nat): (r: Option<Ordering>)
    requires axis < 3 && x < |table| && y < |table|
    ensures r.None? <==> table[x].boundingBox(t0, t1).None? || table[y].boundingBox(t0, t1).None?
    ensures r.Some? ==> r.value != Equal
    ensures r.Some? ==> (r.value == Less <==> Key(table, t0, t1, axis, x) < Key(table, t0, t1, axis, y))
  {
    var a, b := table[x].boundingBox(t0, t1), table[y].boundingBox(t0, t1);
    if a.None? || b.None? then None
    else if a.value.min.At(axis) - b.value.min.At(axis) < 0.0 then Some(Less)
    else Some(Greater)
  }

  /** The sort key of an object: where its box starts on `axis` (0 for an
      object without a box, which the sort never meets). */
  function Key(table: seq<Shape>, t0: real, t1: real, axis: nat, id: nat): real
    requires axis < 3
  {
    if id < |table| && table[id].boundingBox(t0, t1).Some? then table[id].boundingBox(t0, t1).value.min.At(axis) else 0.0
  }

  ghost predicate SortedByKey(table: seq<Shape>, t0: real, t1: real, axis: nat, s: seq<nat>)
    requires axis < 3
  {
    forall i, j :: 0 <= i < j < |s| ==> Key(table, t0, t1, axis, s[i]) <= Key(table, t0, t1, axis, s[j])
  }

  /** `sort_unstable_by(box_compare(time0, time1, axis))` on the slice
      `a[lo..hi]`, by insertion: an element moves down while the comparator
      calls it `Less` than its left neighbour. The slice ends up a
      permutation of itself, ordered by key; the rest of the array is
      untouched. */
  method SortRange(table: seq<Shape>, t0: real, t1: real, axis: nat, a: array<nat>, lo: nat, hi: nat)
    requires axis < 3 && lo <= hi <= a.Length
    requires ValidIds(table, a[..]) && AllBoxed(table, a[lo..hi], t0, t1)
    modifies a
    ensures a[..lo] == old(a[..lo]) && a[hi..] == old(a[hi..])
    ensures multiset(a[lo..hi]) == multiset(old(a[lo..hi]))
    ensures SortedByKey(table, t0, t1, axis, a[lo..hi])
    ensures ValidIds(table, a[..]) && AllBoxed(table, a[lo..hi], t0, t1)
  {
    assert forall k :: lo <= k < hi ==> a[k] == a[lo..hi][k - lo];
    if lo == hi { return; }
    var key := (id: nat) => Key(table, t0, t1, axis, id);
    assert KeyMatches(table, t0, t1, axis, key);
    for i := lo + 1 to hi
      invariant multiset(a[..]) == multiset(old(a[..]))
      invariant forall k :: 0 <= k < lo || hi <= k < a.Length ==> a[k] == old(a[k])
      invariant ValidIds(table, a[..])
      invariant forall k :: lo <= k < hi ==> table[a[k]].boundingBox(t0, t1).Some?
      invariant forall k, l :: lo <= k < l < i ==> key(a[k]) <= key(a[l])
    {
      InsertStep(table, t0, t1, axis, key, a, lo, hi, i);
    }
    SliceFacts(a, old(a[..]), lo, hi);
    SortedSlice(table, t0, t1, axis, a[..], lo, hi);
  }

  /** The slice of a sequence ordered and boxed on `lo..hi` is sorted by
      key and boxed. */
  lemma SortedSlice(table: seq<Shape>, t0: real, t1: real, axis: nat, s: seq<nat>, lo: nat, hi: nat)
    requires axis < 3 && lo <= hi <= |s| && ValidIds(table, s)
    requires forall k :: lo <= k < hi ==> table[s[k]].boundingBox(t0, t1).Some?
    requires forall k, l :: lo <= k < l < hi ==> Key(table, t0, t1, axis, s[k]) <= Key(table, t0, t1, axis, s[l])
    ensures ValidIds(table, s[lo..hi]) && AllBoxed(table, s[lo..hi], t0, t1)
    ensures SortedByKey(table, t0, t1, axis, s[lo..hi])
  {
    assert forall x :: 0 <= x < hi - lo ==> s[lo..hi][x] == s[lo + x];
  }

  /** What a permutation of the whole array that fixes everything outside
      `lo..hi` says about the slices. */
  lemma SliceFacts(a: array<nat>, before: seq<nat>, lo: nat, hi: nat)
    requires lo <= hi <= a.Length == |before|
    requires multiset(a[..]) == multiset(before)
    requires forall k :: 0 <= k < lo || hi <= k < a.Length ==> a[k] == before[k]
    ensures a[..lo] == before[..lo] && a[hi..] == before[hi..]
    ensures multiset(a[lo..hi]) == multiset(before[lo..hi])
  {
    var s := a[..];
    assert forall k :: 0 <= k < lo || hi <= k < |s| ==> s[k] == before[k];
    SameOutside(s, before, lo, hi);
    assert a[..lo] == s[..lo] && a[hi..] == s[hi..] && a[lo..hi] == s[lo..hi];
    SameMiddle(s, before, lo, hi);
  }

  /** Sequences that agree outside `lo..hi` have the same prefix and suffix. */
  lemma SameOutside(s: seq<nat>, before: seq<nat>, lo: nat, hi: nat)
    requires lo <= hi <= |s| == |before|
    requires forall k :: 0 <= k < lo || hi <= k < |s| ==> s[k] == before[k]
    ensures s[..lo] == before[..lo] && s[hi..] == before[hi..]
  {
    assert forall k :: 0 <= k < lo ==> s[..lo][k] == before[..lo][k];
    assert forall k :: 0 <= k < |s| - hi ==> s[hi..][k] == s[hi + k] && before[hi..][k] == before[hi + k];
  }

  /** A permutation that keeps the prefix and suffix permutes the middle. */
  lemma SameMiddle(s: seq<nat>, before: seq<nat>, lo: nat, hi: nat)
    requires lo <= hi <= |s| == |before|
    requires multiset(s) == multiset(before)
    requires s[..lo] == before[..lo] && s[hi..] == before[hi..]
    ensures multiset(s[lo..hi]) == multiset(before[lo..hi])
  {
    assert s == s[..lo] + s[lo..hi] + s[hi..];
    assert before == before[..lo] + before[lo..hi] + before[hi..];
    assert multiset(s) == multiset(s[..lo]) + multiset(s[lo..hi]) + multiset(s[hi..]);
    assert multiset(before) == multiset(before[..lo]) + multiset(before[lo..hi]) + multiset(before[hi..]);
    assert multiset(s[lo..hi]) == multiset(s) - multiset(s[..lo]) - multiset(s[hi..]);
    assert multiset(before[lo..hi]) == multiset(before) - multiset(before[..lo]) - multiset(before[hi..]);
  }

  /** The comparator and the key agree on objects that have boxes. */
  ghost predicate KeyMatches(table: seq<Shape>, t0: real, t1: real, axis: nat, key: nat -> real)
    requires axis < 3
  {
    forall x: nat, y: nat :: x < |table| && y < |table| && BoxCompare(table, t0, t1, axis, x, y).Some? ==>
      (BoxCompare(table, t0, t1, axis, x, y) == Some(Less) <==> key(x) < key(y))
  }

  /** `s[lo..=i]` is ordered by key except possibly at position `j`,
      which is below everything after it. */
  ghost predicate OrderedBut(s: seq<nat>, key: nat -> real, lo: nat, i: nat, j: nat)
    requires lo <= j <= i < |s|
  {
    forall k, l :: lo <= k < l <= i && l != j ==> key(s[k]) <= key(s[l])
  }

  /** Swapping the element at `j` with a larger left neighbour moves the
      exception one place down. */
  lemma SwapDown(s: seq<nat>, key: nat -> real, lo: nat, i: nat, j: nat)
    requires lo < j <= i < |s| && OrderedBut(s, key, lo, i, j) && key(s[j]) < key(s[j - 1])
    ensures OrderedBut(s[j - 1 := s[j]][j := s[j - 1]], key, lo, i, j - 1)
  {
    var t := s[j - 1 := s[j]][j := s[j - 1]];
    forall k, l | lo <= k < l <= i && l != j - 1 ensures key(t[k]) <= key(t[l]) {
      if l == j {
        if k < j - 1 {
          assert key(s[k]) <= key(s[j - 1]);
        }
      } else if k == j - 1 {
        assert key(s[j]) <= key(s[l]);
      } else if k == j {
        assert key(s[j - 1]) <= key(s[l]);
      }
    }
  }

  /** Once the element at `j` is not below its left neighbour, the segment
      is ordered. */
  lemma SettledOrdered(s: seq<nat>, key: nat -> real, lo: nat, i: nat, j: nat)
    requires lo <= j <= i < |s| && OrderedBut(s, key, lo, i, j)
    requires j > lo ==> key(s[j - 1]) <= key(s[j])
    ensures forall k, l :: lo <= k < l <= i ==> key(s[k]) <= key(s[l])
  {
    forall k, l | lo <= k < l <= i ensures key(s[k]) <= key(s[l]) {
      if l == j && k < j - 1 {
        assert key(s[k]) <= key(s[j - 1]);
      }
    }
  }

  /** The state of the inner loop of an insertion pass over `s0`: a
      permutation of `s0` that fixes everything outside `lo..=i`, with
      valid, boxed ids, ordered on `lo..=i` but for position `j`. */
  ghost predicate PassState(table: seq<Shape>, t0: real, t1: real, key: nat -> real, s: seq<nat>, s0: seq<nat>,
                            lo: nat, hi: nat, i: nat, j: nat)
  {
    && lo <= j <= i < hi <= |s| == |s0|
    && multiset(s) == multiset(s0)
    && (forall k :: 0 <= k < lo || i < k < |s| ==> s[k] == s0[k])
    && ValidIds(table, s)
    && (forall k :: lo <= k < hi ==> table[s[k]].boundingBox(t0, t1).Some?)
    && OrderedBut(s, key, lo, i, j)
  }

  lemma PassStep(table: seq<Shape>, t0: real, t1: real, key: nat -> real, s: seq<nat>, s0: seq<nat>,
                 lo: nat, hi: nat, i: nat, j: nat)
    requires PassState(table, t0, t1, key, s, s0, lo, hi, i, j) && j > lo && key(s[j]) < key(s[j - 1])
    ensures PassState(table, t0, t1, key, s[j - 1 := s[j]][j := s[j - 1]], s0, lo, hi, i, j - 1)
  {
    SwapDown(s, key, lo, i, j);
    SwapMultiset(s, j - 1, j);
    var t := s[j - 1 := s[j]][j := s[j - 1]];
    SwapFrame(s, t, s0, lo, i, j);
    SwapBoxed(table, t0, t1, s, t, lo, hi, j);
  }

  /** A swap inside `lo..=i` keeps what lies outside it. */
  lemma SwapFrame(s: seq<nat>, t: seq<nat>, s0: seq<nat>, lo: nat, i: nat, j: nat)
    requires lo < j <= i < |s| == |s0| && t == s[j - 1 := s[j]][j := s[j - 1]]
    requires forall k :: 0 <= k < lo || i < k < |s| ==> s[k] == s0[k]
    ensures forall k :: 0 <= k < lo || i < k < |t| ==> t[k] == s0[k]
  {
  }

  /** A swap inside `lo..hi` keeps every id valid and boxed. */
  lemma SwapBoxed(table: seq<Shape>, t0: real, t1: real, s: seq<nat>, t: seq<nat>, lo: nat, hi: nat, j: nat)
    requires lo < j < hi <= |s| && t == s[j - 1 := s[j]][j := s[j - 1]]
    requires ValidIds(table, s) && forall k :: lo <= k < hi ==> table[s[k]].boundingBox(t0, t1).Some?
    ensures ValidIds(table, t) && forall k :: lo <= k < hi ==> table[t[k]].boundingBox(t0, t1).Some?
  {
    assert forall k :: 0 <= k < |t| ==> t[k] == s[k] || t[k] == s[j] || t[k] == s[j - 1];
  }

  lemma SwapMultiset(s: seq<nat>, x: nat, y: nat)
    requires x < y < |s|
    ensures multiset(s[x := s[y]][y := s[x]]) == multiset(s)
  {
    var u := s[x := s[y]];
    assert multiset(u) == multiset(s) - multiset{s[x]} + multiset{s[y]};
    assert multiset(u[y := s[x]]) == multiset(u) - multiset{u[y]} + multiset{s[x]};
  }

  /** One pass of the outer loop: `a[i]` moves down to its place among the
      already ordered `a[lo..i]`. */
  method InsertStep(table: seq<Shape>, t0: real, t1: real, axis: nat, key: nat -> real, a: array<nat>, lo: nat, hi: nat, i: nat)
    requires axis < 3 && lo < i < hi <= a.Length && KeyMatches(table, t0, t1, axis, key)
    requires ValidIds(table, a[..])
    requires forall k :: lo <= k < hi ==> table[a[k]].boundingBox(t0, t1).Some?
    requires forall k, l :: lo <= k < l < i ==> key(a[k]) <= key(a[l])
    modifies a
    ensures multiset(a[..]) == multiset(old(a[..]))
    ensures forall k :: 0 <= k < lo || i < k < a.Length ==> a[k] == old(a[k])
    ensures ValidIds(table, a[..])
    ensures forall k :: lo <= k < hi ==> table[a[k]].boundingBox(t0, t1).Some?
    ensures forall k, l :: lo <= k < l < i + 1 ==> key(a[k]) <= key(a[l])
  {
    var j: nat := i;
    assert PassState(table, t0, t1, key, a[..], old(a[..]), lo, hi, i, j);
    while j > lo && BoxCompare(table, t0, t1, axis, a[j], a[j - 1]) == Some(Less)
      invariant PassState(table, t0, t1, key, a[..], old(a[..]), lo, hi, i, j)
    {
      ghost var s := a[..];
      assert key(s[j]) < key(s[j - 1]);
      PassStep(table, t0, t1, key, s, old(a[..]), lo, hi, i, j);
      a[j - 1], a[j] := a[j], a[j - 1];
      assert a[..] == s[j - 1 := s[j]][j := s[j - 1]];
      j := j - 1;
    }
    assert j > lo ==> BoxCompare(table, t0, t1, axis, a[j], a[j - 1]).Some?;
    SettledOrdered(a[..], key, lo, i, j);
  }
  /** The box of a child: the object's own box for a leaf (none for an
      index outside the table), the cached box for an inner node. */
  function ChildBox(table: seq<Shape>, c: Child, t0: real, t1: real): Option<Box>
  {
    match c
    case Leaf(id) => if id < |table| then table[id].boundingBox(t0, t1) else None
    case Inner(n) => Some(n.bbox)
  }

  /** The objects a tree refers to. */
  function LeafSet(c: Child): set<nat>
  {
    match c
    case Leaf(id) => {id}
    case Inner(n) => LeafSet(n.left) + LeafSet(n.right)
  }

  /** The indices a slice holds. */
  function Elements(s: seq<nat>): set<nat>
  {
    set x | x in s
  }

  /** A tree as `BVHNode::new` builds it: every leaf is an object of the
      table with a box, and every node caches the union of its children's
      boxes. */
  ghost predicate Valid(table: seq<Shape>, c: Child, t0: real, t1: real)
  {
    match c
    case Leaf(id) => id < |table| && table[id].boundingBox(t0, t1).Some?
    case Inner(n) =>
      && Valid(table, n.left, t0, t1) && Valid(table, n.right, t0, t1)
      && ChildBox(table, n.left, t0, t1).Some? && ChildBox(table, n.right, t0, t1).Some?
      && n.bbox == SurroundingBox(ChildBox(table, n.left, t0, t1).value, ChildBox(table, n.right, t0, t1).value)
  }

  lemma WithinTransitive(a: Box, b: Box, c: Box)
    requires Within(a, b) && Within(b, c)
    ensures Within(a, c)
  {
  }

  /** The box of a valid tree holds the box of every object in it. */
  lemma {:induction false} BoxHoldsLeaves(table: seq<Shape>, c: Child, t0: real, t1: real, id: nat)
    requires Valid(table, c, t0, t1) && id in LeafSet(c)
    ensures id < |table| && table[id].boundingBox(t0, t1).Some? && ChildBox(table, c, t0, t1).Some?
    ensures Within(table[id].boundingBox(t0, t1).value, ChildBox(table, c, t0, t1).value)
  {
    match c
    case Leaf(_) =>
    case Inner(n) =>
      var side := if id in LeafSet(n.left) then n.left else n.right;
      BoxHoldsLeaves(table, side, t0, t1, id);
      WithinTransitive(table[id].boundingBox(t0, t1).value, ChildBox(table, side, t0, t1).value, n.bbox);
  }

  /** `len / 2` splits a slice of three or more into two non-empty, strictly
      shorter halves, so the recursion of `BVHNode::new` ends. */
  lemma SplitShrinks(len: nat)
    requires len >= 3
    ensures 0 < len / 2 < len && 0 < len - len / 2 < len
  {
  }

  /** An empty slice reaches the split branch and recurses on two empty
      halves, no shorter than itself: the source does not end on it, and
      `Build` requires a non-empty slice. */
  lemma EmptySliceDoesNotShrink(len: nat)
    requires len == 0
    ensures len / 2 == len && len - len / 2 == len
  {
  }

  /** `BVHNode::new(&mut a[lo..hi], time0, time1)`, with `axisDraw(lo, hi)`
      standing for the axis `gen_range(0..3)` draws at that call. The
      comparator panics on an object without a box, and so do the checks
      after the split; a panic is `None` here, and it happens exactly when
      some object of the slice has no box. Otherwise the slice is sorted on
      the drawn axis and split: one object is both children, two objects
      are the two children in sorted order, and longer slices are split at
      `len / 2` into two subtrees. The node caches the union of the
      children's boxes. */
  method Build(table: seq<Shape>, a: array<nat>, lo: nat, hi: nat, t0: real, t1: real, axisDraw: (nat, nat) -> nat)
    returns (r: Option<BvhNode>)
    requires lo < hi <= a.Length && ValidIds(table, a[..])
    requires forall x: nat, y: nat :: axisDraw(x, y) < 3
    modifies a
    decreases hi - lo, 1
    ensures ValidIds(table, a[..])
    ensures a[..lo] == old(a[..lo]) && a[hi..] == old(a[hi..])
    ensures multiset(a[lo..hi]) == multiset(old(a[lo..hi]))
    ensures r.Some? <==> AllBoxed(table, old(a[lo..hi]), t0, t1)
    ensures r.Some? ==> Valid(table, Inner(r.value), t0, t1)
    ensures r.Some? ==> LeafSet(Inner(r.value)) == Elements(a[lo..hi])
    ensures r.Some? && hi - lo == 1 ==> r.value.left == r.value.right == Leaf(a[lo])
    ensures r.Some? && hi - lo == 2 ==>
              && r.value.left == Leaf(a[lo]) && r.value.right == Leaf(a[lo + 1])
              && Key(table, t0, t1, axisDraw(lo, hi), a[lo]) <= Key(table, t0, t1, axisDraw(lo, hi), a[lo + 1])
  {
    var axis := axisDraw(lo, hi);
    var boxed := AllBoxedNow(table, a, lo, hi, t0, t1);
    if !boxed {
      return None;
    }
    SortRange(table, t0, t1, axis, a, lo, hi);
    assert forall k :: lo <= k < hi ==> a[k] == a[lo..hi][k - lo];
    var len := hi - lo;
    var left, right;
    if len == 1 {
      assert a[lo..hi] == [a[lo]];
      left, right := Leaf(a[lo]), Leaf(a[lo]);
    } else if len == 2 {
      assert a[lo..hi] == [a[lo], a[lo + 1]];
      left, right := Leaf(a[lo]), Leaf(a[lo + 1]);
    } else {
      left, right := BuildHalves(table, a, lo, hi, t0, t1, axisDraw);
    }
    var leftBox, rightBox := ChildBox(table, left, t0, t1), ChildBox(table, right, t0, t1);
    r := Some(BvhNode(left, right, SurroundingBox(leftBox.value, rightBox.value)));
  }

  /** The branch of `BVHNode::new` for three or more objects: the sorted
      slice is split at `len / 2` and a subtree is built on each half; both
      are valid trees with boxes, and together they refer to exactly the
      objects of the slice. */
  method BuildHalves(table: seq<Shape>, a: array<nat>, lo: nat, hi: nat, t0: real, t1: real, axisDraw: (nat, nat) -> nat)
    returns (left: Child, right: Child)
    requires lo + 3 <= hi <= a.Length && ValidIds(table, a[..]) && AllBoxed(table, a[lo..hi], t0, t1)
    requires forall x: nat, y: nat :: axisDraw(x, y) < 3
    modifies a
    decreases hi - lo, 0
    ensures ValidIds(table, a[..])
    ensures a[..lo] == old(a[..lo]) && a[hi..] == old(a[hi..])
    ensures multiset(a[lo..hi]) == multiset(old(a[lo..hi]))
    ensures Valid(table, left, t0, t1) && Valid(table, right, t0, t1)
    ensures ChildBox(table, left, t0, t1).Some? && ChildBox(table, right, t0, t1).Some?
    ensures LeafSet(left) + LeafSet(right) == Elements(a[lo..hi])
  {
    var mid := lo + (hi - lo) / 2;
    ghost var sorted := a[..];
    assert AllBoxed(table, a[lo..mid], t0, t1) && AllBoxed(table, a[mid..hi], t0, t1) by {
      assert forall k :: lo <= k < mid ==> a[lo..mid][k - lo] == a[k] == a[lo..hi][k - lo];
      assert forall k :: mid <= k < hi ==> a[mid..hi][k - mid] == a[k] == a[lo..hi][k - lo];
    }
    var l := Build(table, a, lo, mid, t0, t1, axisDraw);
    ghost var afterLeft := a[..];
    SuffixKept(sorted, afterLeft, mid, hi);
    var rr := Build(table, a, mid, hi, t0, t1, axisDraw);
    PrefixKept(afterLeft, a[..], lo, mid);
    SplitFacts(sorted, afterLeft, a[..], lo, mid, hi);
    left, right := Inner(l.value), Inner(rr.value);
  }

  /** The test behind the panics: every object in `a[lo..hi]` has a box. */
  method AllBoxedNow(table: seq<Shape>, a: array<nat>, lo: nat, hi: nat, t0: real, t1: real) returns (b: bool)
    requires lo <= hi <= a.Length && ValidIds(table, a[..])
    ensures b == AllBoxed(table, a[lo..hi], t0, t1)
  {
    assert forall k :: lo <= k < hi ==> a[lo..hi][k - lo] == a[k];
    for k := lo to hi
      invariant forall x :: lo <= x < k ==> table[a[x]].boundingBox(t0, t1).Some?
    {
      if table[a[k]].boundingBox(t0, t1).None? {
        return false;
      }
    }
    return true;
  }

  /** A slice starting at `mid` is kept when the whole suffix is. */
  lemma SuffixKept(s: seq<nat>, s': seq<nat>, mid: nat, hi: nat)
    requires mid <= hi <= |s| == |s'| && s'[mid..] == s[mid..]
    ensures s'[mid..hi] == s[mid..hi]
  {
    assert forall k :: mid <= k < hi ==> s'[k] == s'[mid..][k - mid] && s[k] == s[mid..][k - mid];
  }

  /** A slice ending at `mid` is kept when the whole prefix is. */
  lemma PrefixKept(s: seq<nat>, s': seq<nat>, lo: nat, mid: nat)
    requires lo <= mid <= |s| == |s'| && s'[..mid] == s[..mid]
    ensures s'[lo..mid] == s[lo..mid] && s'[..lo] == s[..lo]
  {
    assert forall k :: 0 <= k < mid ==> s'[k] == s'[..mid][k] && s[k] == s[..mid][k];
  }

  /** After sorting (`s0`), building the left half (`s1`) and building the
      right half (`s2`), the two halves together hold what the sorted slice
      held, and the elements of the slice are those of the two halves. */
  lemma SplitFacts(s0: seq<nat>, s1: seq<nat>, s2: seq<nat>, lo: nat, mid: nat, hi: nat)
    requires lo <= mid <= hi <= |s0| == |s1| == |s2|
    requires multiset(s1[lo..mid]) == multiset(s0[lo..mid]) && s1[mid..] == s0[mid..] && s1[..lo] == s0[..lo]
    requires s2[..mid] == s1[..mid] && s2[hi..] == s1[hi..]
    requires multiset(s2[mid..hi]) == multiset(s1[mid..hi])
    ensures s2[..lo] == s0[..lo] && s2[hi..] == s0[hi..]
    ensures multiset(s2[lo..hi]) == multiset(s0[lo..hi])
    ensures Elements(s2[lo..hi]) == Elements(s2[lo..mid]) + Elements(s2[mid..hi])
  {
    PrefixKept(s1, s2, lo, mid);
    SuffixKept(s0, s1, mid, hi);
    assert s1[hi..] == s0[hi..] by {
      assert forall k :: hi <= k < |s0| ==> s1[k] == s1[mid..][k - mid] && s0[k] == s0[mid..][k - mid];
    }
    assert s2[lo..hi] == s2[lo..mid] + s2[mid..hi];
    assert s0[lo..hi] == s0[lo..mid] + s0[mid..hi];
    assert s2[..lo] == s1[..lo] by {
      assert forall k :: 0 <= k < lo ==> s2[k] == s2[..mid][k] && s1[k] == s1[..mid][k];
    }
  }

  /** `BVHNode::hit`: a missed node box is a miss without asking the
      children. Otherwise both children are asked with the same
      (`t_min`, `t_max`), and of two hits the left one is returned only when
      it is strictly closer; on a tie the right one wins. */
  function NodeHit(table: seq<Shape>, n: BvhNode, ray: Ray, tMin: real, tMax: real): (r: Option<Hit>)
    decreases n
    ensures !Hits(n.bbox, ray, tMin, tMax) ==> r.None?
    ensures r.Some? ==> r == ChildHit(table, n.left, ray, tMin, tMax) || r == ChildHit(table, n.right, ray, tMin, tMax)
    ensures Hits(n.bbox, ray, tMin, tMax) && (ChildHit(table, n.left, ray, tMin, tMax).Some? || ChildHit(table, n.right, ray, tMin, tMax).Some?) ==> r.Some?
    ensures r.Some? && ChildHit(table, n.left, ray, tMin, tMax).Some? ==> r.value.t <= ChildHit(table, n.left, ray, tMin, tMax).value.t
    ensures r.Some? && ChildHit(table, n.right, ray, tMin, tMax).Some? ==> r.value.t <= ChildHit(table, n.right, ray, tMin, tMax).value.t
    ensures Hits(n.bbox, ray, tMin, tMax) && ChildHit(table, n.left, ray, tMin, tMax).Some? && ChildHit(table, n.right, ray, tMin, tMax).Some?
            && ChildHit(table, n.left, ray, tMin, tMax).value.t < ChildHit(table, n.right, ray, tMin, tMax).value.t
            ==> r == ChildHit(table, n.left, ray, tMin, tMax)
    ensures Hits(n.bbox, ray, tMin, tMax) && ChildHit(table, n.left, ray, tMin, tMax).Some? && ChildHit(table, n.right, ray, tMin, tMax).Some?
            && ChildHit(table, n.right, ray, tMin, tMax).value.t <= ChildHit(table, n.left, ray, tMin, tMax).value.t
            ==> r == ChildHit(table, n.right, ray, tMin, tMax)
  {
    if Hits(n.bbox, ray, tMin, tMax) then
      var left := ChildHit(table, n.left, ray, tMin, tMax);
      var right := ChildHit(table, n.right, ray, tMin, tMax);
      match (left, right)
      case (Some(l), Some(r)) => if l.t < r.t then Some(l) else Some(r)
      case (Some(l), None) => Some(l)
      case (None, Some(r)) => Some(r)
      case (None, None) => None
    else None
  }

  /** A child's answer: the object's own `hit` for a leaf, the node's for
      an inner node. */
  function ChildHit(table: seq<Shape>, c: Child, ray: Ray, tMin: real, tMax: real): (r: Option<Hit>)
    decreases c
    ensures c.Leaf? && c.id >= |table| ==> r.None?
    ensures c.Leaf? && c.id < |table| ==> r == table[c.id].hit(ray, tMin, tMax)
    ensures c.Inner? && !Hits(c.node.bbox, ray, tMin, tMax) ==> r.None?
  {
    match c
    case Leaf(id) => if id < |table| then table[id].hit(ray, tMin, tMax) else None
    case Inner(n) => NodeHit(table, n, ray, tMin, tMax)
  }

  /** A hit reported by a tree is the hit of one of its objects, queried with
      the same bounds. */
  lemma {:induction false} HitComesFromLeaf(table: seq<Shape>, c: Child, ray: Ray, tMin: real, tMax: real)
    requires ChildHit(table, c, ray, tMin, tMax).Some?
    ensures exists id :: id in LeafSet(c) && id < |table| && table[id].hit(ray, tMin, tMax) == ChildHit(table, c, ray, tMin, tMax)
  {
    match c
    case Leaf(id) =>
      assert id in LeafSet(c);
    case Inner(n) =>
      var r := NodeHit(table, n, ray, tMin, tMax);
      if r == ChildHit(table, n.left, ray, tMin, tMax) {
        HitComesFromLeaf(table, n.left, ray, tMin, tMax);
      } else {
        HitComesFromLeaf(table, n.right, ray, tMin, tMax);
      }
  }

  /** The object hits in the open range `(t_min, t_max)`, at a point
      strictly inside its box for the times `t0` to `t1`. */
  ghost predicate InsideHit(obj: Shape, t0: real, t1: real, ray: Ray, tMin: real, tMax: real)
  {
    && obj.hit(ray, tMin, tMax).Some? && obj.boundingBox(t0, t1).Some?
    && tMin < obj.hit(ray, tMin, tMax).value.t < tMax
    && StrictlyInside(obj.boundingBox(t0, t1).value, ray.At(obj.hit(ray, tMin, tMax).value.t))
  }

  /** A box that lies within another holds, strictly, every point the
      inner one holds strictly. */
  lemma InsideWithin(a: Box, b: Box, p: Vec3)
    requires Within(a, b) && StrictlyInside(a, p)
    ensures StrictlyInside(b, p)
  {
  }

  /** The converse of `HitComesFromLeaf`: a tree finds every hit of one of
      its objects that lies, in the open range, strictly inside that
      object's box, and what it reports is no farther. So for such hits the
      tree's nearest `t` is the nearest `t` a scan over its objects finds. */
  lemma {:induction false} FoundIfInside(table: seq<Shape>, c: Child, t0: real, t1: real, ray: Ray, tMin: real, tMax: real, id: nat)
    requires Valid(table, c, t0, t1) && id in LeafSet(c) && id < |table|
    requires InsideHit(table[id], t0, t1, ray, tMin, tMax)
    ensures ChildHit(table, c, ray, tMin, tMax).Some?
    ensures ChildHit(table, c, ray, tMin, tMax).value.t <= table[id].hit(ray, tMin, tMax).value.t
  {
    match c
    case Leaf(_) =>
    case Inner(n) =>
      var t := table[id].hit(ray, tMin, tMax).value.t;
      BoxHoldsLeaves(table, c, t0, t1, id);
      InsideWithin(table[id].boundingBox(t0, t1).value, n.bbox, ray.At(t));
      HitIfInside(n.bbox, ray, tMin, tMax, t);
      if id in LeafSet(n.left) {
        FoundIfInside(table, n.left, t0, t1, ray, tMin, tMax, id);
      } else {
        FoundIfInside(table, n.right, t0, t1, ray, tMin, tMax, id);
      }
  }

  /** `BVHNode::bounding_box`: the cached box, whatever the times. */
  function NodeBoundingBox(n: BvhNode, t0: real, t1: real): (r: Option<Box>)
    ensures r == Some(n.bbox)
  {
    Some(n.bbox)
  }

  function BvhShape(table: seq<Shape>, n: BvhNode): (sh: Shape)
    ensures forall ray, tMin, tMax :: !Hits(n.bbox, ray, tMin, tMax) ==> sh.hit(ray, tMin, tMax).None?
    ensures forall ray, tMin, tMax :: sh.hit(ray, tMin, tMax).Some? ==>
              exists id :: id in LeafSet(Inner(n)) && id < |table| && table[id].hit(ray, tMin, tMax) == sh.hit(ray, tMin, tMax)
    ensures forall t0, t1, ray, tMin, tMax, id ::
              && Valid(table, Inner(n), t0, t1) && id in LeafSet(Inner(n)) && id < |table|
              && InsideHit(table[id], t0, t1, ray, tMin, tMax)
              ==> sh.hit(ray, tMin, tMax).Some? && sh.hit(ray, tMin, tMax).value.t <= table[id].hit(ray, tMin, tMax).value.t
    ensures forall t0, t1 :: sh.boundingBox(t0, t1) == Some(n.bbox)
  {
    forall t0, t1, ray, tMin, tMax, id |
      && Valid(table, Inner(n), t0, t1) && id in LeafSet(Inner(n)) && id < |table|
      && InsideHit(table[id], t0, t1, ray, tMin, tMax)
      ensures NodeHit(table, n, ray, tMin, tMax).Some? && NodeHit(table, n, ray, tMin, tMax).value.t <= table[id].hit(ray, tMin, tMax).value.t
    {
      FoundIfInside(table, Inner(n), t0, t1, ray, tMin, tMax, id);
    }
    assert forall ray, tMin, tMax :: NodeHit(table, n, ray, tMin, tMax).Some? ==>
             exists id :: id in LeafSet(Inner(n)) && id < |table| && table[id].hit(ray, tMin, tMax) == NodeHit(table, n, ray, tMin, tMax) by {
      forall ray, tMin, tMax | NodeHit(table, n, ray, tMin, tMax).Some?
        ensures exists id :: id in LeafSet(Inner(n)) && id < |table| && table[id].hit(ray, tMin, tMax) == NodeHit(table, n, ray, tMin, tMax)
      {
        HitComesFromLeaf(table, Inner(n), ray, tMin, tMax);
      }
    }
    Shape((ray, tMin, tMax) => NodeHit(table, n, ray, tMin, tMax), (t0, t1) => NodeBoundingBox(n, t0, t1))
  }
}
