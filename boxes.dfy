/** Bounding-box arithmetic of kdtree.c: centres, extents, the per-axis
    union of boxes (merge_n), growing one box by another with a "changed"
    flag (merge), and the choice of split plane for a box (split_box). */
module Boxes {
  import opened KdTypes

  function Min(a: real, b: real): real { if b < a then b else a }
  function Max(a: real, b: real): real { if b > a then b else a }

  /** center(): the midpoint of a box on one axis. */
  function Center(b: BoundingBox, axis: int): (c: real)
    requires 0 <= axis < 3
    ensures c - b.minp[axis] == b.maxp[axis] - c
    ensures b.minp[axis] <= b.maxp[axis] ==> b.minp[axis] <= c <= b.maxp[axis]
  {
    (b.minp[axis] + b.maxp[axis]) / 2.0
  }

  /** The length of a box along one axis. */
  function Extent(b: BoundingBox, axis: int): real
    requires 0 <= axis < 3
  {
    b.maxp[axis] - b.minp[axis]
  }

  /** Minimum not above maximum on every axis. */
  ghost predicate WellFormed(b: BoundingBox)
  {
    forall k :: 0 <= k < 3 ==> b.minp[k] <= b.maxp[k]
  }

  /** `outer` encloses `inner` on every axis. */
  ghost predicate Contains(outer: BoundingBox, inner: BoundingBox)
  {
    forall k :: 0 <= k < 3 ==> outer.minp[k] <= inner.minp[k] && inner.maxp[k] <= outer.maxp[k]
  }

  lemma {:induction false} ContainsTransitive(a: BoundingBox, b: BoundingBox, c: BoundingBox)
    requires Contains(a, b) && Contains(b, c)
    ensures Contains(a, c)
  {
  }

  /** The test merge() uses for "this slot holds no box yet": both bounds
      on axis 0 are zero. Axes 1 and 2 are not looked at. */
  predicate IsUnset(b: BoundingBox)
  {
    b.minp[0] == 0.0 && b.maxp[0] == 0.0
  }

  /** The smallest box enclosing both boxes: per axis, the lower minimum
      and the higher maximum. */
  function Hull(a: BoundingBox, b: BoundingBox): (r: BoundingBox)
    ensures Contains(r, a) && Contains(r, b)
    ensures forall k :: 0 <= k < 3 ==>
      (r.minp[k] == a.minp[k] || r.minp[k] == b.minp[k]) &&
      (r.maxp[k] == a.maxp[k] || r.maxp[k] == b.maxp[k])
  {
    BoundingBox([Min(a.minp[0], b.minp[0]), Min(a.minp[1], b.minp[1]), Min(a.minp[2], b.minp[2])],
                [Max(a.maxp[0], b.maxp[0]), Max(a.maxp[1], b.maxp[1]), Max(a.maxp[2], b.maxp[2])])
  }

  /** A box that encloses both `a` and `b` encloses their hull. */
  lemma {:induction false} HullLeast(a: BoundingBox, b: BoundingBox, c: BoundingBox)
    requires Contains(c, a) && Contains(c, b)
    ensures Contains(c, Hull(a, b))
  {
  }

  /** The order of the two boxes does not matter to their hull. */
  lemma {:induction false} HullCommutes(a: BoundingBox, b: BoundingBox)
    ensures Hull(a, b) == Hull(b, a)
  {
  }

  /** Nor does the grouping of three. */
  lemma {:induction false} HullAssociates(a: BoundingBox, b: BoundingBox, c: BoundingBox)
    ensures Hull(Hull(a, b), c) == Hull(a, Hull(b, c))
  {
  }

  /** Some bound of `v2` lies outside `v1`: merging would move a bound. */
  ghost predicate Sticks(v1: BoundingBox, v2: BoundingBox)
  {
    exists k :: 0 <= k < 3 && (v2.minp[k] < v1.minp[k] || v2.maxp[k] > v1.maxp[k])
  }

  /** What merge(v1, v2) leaves in *v1, and the flag it returns. */
  function Merged(v1: BoundingBox, v2: BoundingBox): (r: (BoundingBox, bool))
    ensures Contains(r.0, v2)
    ensures IsUnset(v1) ==> r == (v2, true)
    ensures !IsUnset(v1) ==> Contains(r.0, v1) && (r.1 <==> Sticks(v1, v2))
    ensures !IsUnset(v1) ==> r.0 == Hull(v1, v2)
    ensures !r.1 ==> r.0 == v1
  {
    if IsUnset(v1) then (v2, true)
    else
      var h := Hull(v1, v2);
      assert !Sticks(v1, v2) ==> h.minp == v1.minp && h.maxp == v1.maxp;
      assert Sticks(v1, v2) ==> h != v1;
      (h, h != v1)
  }

  /** merge(): one bound at a time, as the source loops over the axes. */
  method Merge(v1: BoundingBox, v2: BoundingBox) returns (r: BoundingBox, change: bool)
    ensures (r, change) == Merged(v1, v2)
  {
    if v1.minp[0] == 0.0 && v1.maxp[0] == 0.0 {
      return v2, true;
    }
    r, change := v1, false;
    for i := 0 to 3
      invariant forall k :: 0 <= k < i ==>
        r.minp[k] == Min(v1.minp[k], v2.minp[k]) && r.maxp[k] == Max(v1.maxp[k], v2.maxp[k])
      invariant forall k :: i <= k < 3 ==> r.minp[k] == v1.minp[k] && r.maxp[k] == v1.maxp[k]
      invariant change <==> exists k :: 0 <= k < i && (v2.minp[k] < v1.minp[k] || v2.maxp[k] > v1.maxp[k])
    {
      if v2.minp[i] < r.minp[i] {
        r := r.(minp := r.minp[i := v2.minp[i]]);
        change := true;
      }
      if v2.maxp[i] > r.maxp[i] {
        r := r.(maxp := r.maxp[i := v2.maxp[i]]);
        change := true;
      }
    }
    assert r.minp == Hull(v1, v2).minp && r.maxp == Hull(v1, v2).maxp;
  }

  /** The per-axis union that merge_n computes over a non-empty sequence,
      folded from the left. */
  function UnionOf(s: seq<BoundingBox>): BoundingBox
    requires |s| >= 1
  {
    if |s| == 1 then s[0] else Hull(UnionOf(s[..|s| - 1]), s[|s| - 1])
  }

  /** `b` is the smallest box enclosing every box of `s`: it encloses each
      one, and each of its six bounds is a bound of some box of `s`. Only
      membership matters, so this is unaffected by reordering `s`. */
  ghost predicate IsHull(b: BoundingBox, s: seq<BoundingBox>)
  {
    |s| >= 1 &&
    (forall x :: x in s ==> Contains(b, x)) &&
    (forall k :: 0 <= k < 3 ==>
      (exists x :: x in s && b.minp[k] == x.minp[k]) &&
      (exists x :: x in s && b.maxp[k] == x.maxp[k]))
  }

  lemma {:induction false} UnionOfIsHull(s: seq<BoundingBox>)
    requires |s| >= 1
    ensures IsHull(UnionOf(s), s)
  {
    if |s| > 1 {
      var init, last := s[..|s| - 1], s[|s| - 1];
      assert s == init + [last];
      UnionOfIsHull(init);
      var u := UnionOf(init);
      forall x | x in s ensures Contains(UnionOf(s), x) {
        if x in init {
          ContainsTransitive(UnionOf(s), u, x);
        }
      }
      forall k | 0 <= k < 3
        ensures exists x :: x in s && UnionOf(s).minp[k] == x.minp[k]
        ensures exists x :: x in s && UnionOf(s).maxp[k] == x.maxp[k]
      {
        if UnionOf(s).minp[k] == last.minp[k] {
          assert last in s;
        } else {
          var x :| x in init && u.minp[k] == x.minp[k];
          assert x in s;
        }
        if UnionOf(s).maxp[k] == last.maxp[k] {
          assert last in s;
        } else {
          var x :| x in init && u.maxp[k] == x.maxp[k];
          assert x in s;
        }
      }
    }
  }

  /** The hull of a sequence is determined by the sequence. */
  lemma {:induction false} HullUnique(a: BoundingBox, b: BoundingBox, s: seq<BoundingBox>)
    requires IsHull(a, s) && IsHull(b, s)
    ensures a == b
  {
    forall k | 0 <= k < 3 ensures a.minp[k] == b.minp[k] && a.maxp[k] == b.maxp[k] {
      var x :| x in s && a.minp[k] == x.minp[k];
      var y :| y in s && b.minp[k] == y.minp[k];
      assert Contains(a, y) && Contains(b, x);
      var x' :| x' in s && a.maxp[k] == x'.maxp[k];
      var y' :| y' in s && b.maxp[k] == y'.maxp[k];
      assert Contains(a, y') && Contains(b, x');
    }
    assert a.minp == b.minp && a.maxp == b.maxp;
  }

  /** Reordering the boxes keeps their hull. */
  lemma {:induction false} HullPermuted(b: BoundingBox, s: seq<BoundingBox>, t: seq<BoundingBox>)
    requires multiset(s) == multiset(t)
    requires IsHull(b, s)
    ensures IsHull(b, t)
  {
    assert |t| == |multiset(t)| == |multiset(s)| == |s|;
    forall x | x in t ensures Contains(b, x) {
      assert x in multiset(t);
      assert x in s;
    }
    forall k | 0 <= k < 3
      ensures exists x :: x in t && b.minp[k] == x.minp[k]
      ensures exists x :: x in t && b.maxp[k] == x.maxp[k]
    {
      assert (exists x :: x in s && b.minp[k] == x.minp[k]) && (exists x :: x in s && b.maxp[k] == x.maxp[k]);
      var x :| x in s && b.minp[k] == x.minp[k];
      assert x in multiset(s);
      var y :| y in s && b.maxp[k] == y.maxp[k];
      assert y in multiset(s);
      assert x in t && y in t;
    }
    assert |t| >= 1;
    assert forall x :: x in t ==> Contains(b, x);
    assert forall k :: 0 <= k < 3 ==> (exists x :: x in t && b.minp[k] == x.minp[k]) && (exists x :: x in t && b.maxp[k] == x.maxp[k]);
  }

  lemma {:induction false} UnionOfStep(a: seq<BoundingBox>, lo: int, j: int)
    requires 0 <= lo && 1 <= j && lo + j < |a|
    ensures UnionOf(a[lo..lo + j + 1]) == Hull(UnionOf(a[lo..lo + j]), a[lo + j])
  {
    assert a[lo..lo + j + 1][..j] == a[lo..lo + j];
  }

  /** merge_n(): the hull of the n boxes of a window of an array. */
  method MergeN(aabb: array<BoundingBox>, lo: int, n: int) returns (v1: BoundingBox)
    requires 0 <= lo && 1 <= n && lo + n <= aabb.Length
    ensures v1 == UnionOf(aabb[lo..lo + n])
  {
    v1 := aabb[lo];
    assert aabb[lo..lo + 1] == [aabb[lo]];
    for j := 1 to n
      invariant v1 == UnionOf(aabb[lo..lo + j])
    {
      v1 := GrowBox(v1, aabb[lo + j]);
      ghost var s := aabb[..];
      UnionOfStep(s, lo, j);
      assert aabb[lo..lo + j] == s[lo..lo + j] && aabb[lo..lo + j + 1] == s[lo..lo + j + 1];
    }
  }

  /** The inner loop of merge_n(): lower each minimum and raise each
      maximum of `v1` to take in `v2`, one axis at a time. */
  method GrowBox(v1: BoundingBox, v2: BoundingBox) returns (r: BoundingBox)
    ensures r == Hull(v1, v2)
  {
    r := v1;
    for i := 0 to 3
      invariant forall k :: 0 <= k < i ==>
        r.minp[k] == Min(v1.minp[k], v2.minp[k]) && r.maxp[k] == Max(v1.maxp[k], v2.maxp[k])
      invariant forall k :: i <= k < 3 ==> r.minp[k] == v1.minp[k] && r.maxp[k] == v1.maxp[k]
    {
      if v2.minp[i] < r.minp[i] {
        r := r.(minp := r.minp[i := v2.minp[i]]);
      }
      if v2.maxp[i] > r.maxp[i] {
        r := r.(maxp := r.maxp[i := v2.maxp[i]]);
      }
    }
    assert r.minp == Hull(v1, v2).minp && r.maxp == Hull(v1, v2).maxp;
  }

  /** split_box(): the axis of greatest extent and the box's midpoint on it.
      X wins every tie it is part of, Y wins only when strictly longest, and
      Z takes the rest. */
  function SplitBox(bb: BoundingBox): (p: Split)
    ensures p.Plane? && 0 <= p.dir < 3
    ensures forall k :: 0 <= k < 3 ==> Extent(bb, k) <= Extent(bb, p.dir)
    ensures Extent(bb, 0) >= Extent(bb, 1) && Extent(bb, 0) >= Extent(bb, 2) ==> p.dir == DIRECTION_X
    ensures p.dir == DIRECTION_Y ==> Extent(bb, 1) > Extent(bb, 0) && Extent(bb, 1) > Extent(bb, 2)
    ensures p.dir == DIRECTION_Z ==> Extent(bb, 2) > Extent(bb, 0)
    ensures p.coord == Center(bb, p.dir)
  {
    var x := bb.maxp[0] - bb.minp[0];
    var y := bb.maxp[1] - bb.minp[1];
    var z := bb.maxp[2] - bb.minp[2];
    if x >= y && x >= z then Plane(DIRECTION_X, (bb.maxp[0] + bb.minp[0]) / 2.0)
    else if y > x && y > z then Plane(DIRECTION_Y, (bb.maxp[1] + bb.minp[1]) / 2.0)
    else Plane(DIRECTION_Z, (bb.maxp[2] + bb.minp[2]) / 2.0)
  }
}
