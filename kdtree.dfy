/** struct kdtree and the operations of kdtree.c that work on it: the depth,
    the split planes and the boxes of a complete binary tree stored as two
    parallel arrays in heap order. */
module Tree {
  import opened KdTypes
  import opened Boxes
  import opened HeapIndex
  import opened Partitioning
  import opened TreeSpec

  /** The depth loop of kdtree_build(): one level, plus one per halving of
      n (truncating), while below KDTREE_MAXDEPTH. */
  method BuildDepth(n: int) returns (depth: int)
    ensures depth == TreeDepth(n)
  {
    depth := 1;
    var t := n;
    while depth < KDTREE_MAXDEPTH && t > 0
      invariant 1 <= depth <= KDTREE_MAXDEPTH
      invariant depth - 1 + Halvings(t) == Halvings(n)
      decreases KDTREE_MAXDEPTH - depth
    {
      depth := depth + 1;
      t := t / 2;
    }
  }

  class KdTree {
    var depth: int
    const split: array<Split>
    const box: array<BoundingBox>

    /** Both arrays hold KDTREE_NODES entries and the depth is one the
        builder can pick. */
    ghost predicate Valid()
      reads this
    {
      split.Length == KDTREE_NODES && box.Length == KDTREE_NODES &&
      1 <= depth <= KDTREE_MAXDEPTH
    }

    /** Storage for a tree before any build: no split written. struct kdtree
        has no initialiser, so nothing is promised about the depth beyond
        Valid() or about the boxes. */
    constructor ()
      ensures Valid()
      ensures forall i :: 0 <= i < KDTREE_NODES ==> split[i] == Unwritten
    {
      depth := 1;
      split := new Split[KDTREE_NODES](_ => Unwritten);
      box := new BoundingBox[KDTREE_NODES](_ => Zero);
    }

    /** split_boundingbox(): below `slot`, split each box by split_box and
        give its two halves to the children, down to `maxslots`. */
    method SplitBoundingBox(slot: nat, maxslots: nat)
      requires Valid() && slot < maxslots <= KDTREE_NODES && maxslots % 2 == 1
      modifies split, box
      ensures Subdivided(box[..], split[..], slot, maxslots)
      ensures box[slot] == old(box[slot])
      ensures KeepsOutside(old(box[..]), old(split[..]), box[..], split[..], slot, maxslots)
      decreases maxslots - slot
    {
      ghost var b0, s0 := box[..], split[..];
      var bb := box[slot];
      var p := SplitBox(bb);
      split[slot] := p;
      var left := slot * 2 + 1;
      if left >= maxslots {
        KeepsOutsideWrite(b0, s0, slot, maxslots, bb, p);
        assert box[..] == b0[slot := bb];
        return;
      }
      RightChildFits(slot, maxslots);
      ghost var s1 := split[..];
      box[left] := bb.(maxp := bb.maxp[p.dir := p.coord]);
      ghost var b1 := box[..];
      SplitBoundingBox(left, maxslots);
      ghost var b2, s2 := box[..], split[..];
      box[left + 1] := bb.(minp := bb.minp[p.dir := p.coord]);
      ghost var b3 := box[..];
      SplitBoundingBox(left + 1, maxslots);
      SplitChildrenCompose(b0, s0, s1, b1, b2, s2, b3, box[..], split[..], slot, maxslots);
    }

    /** calc_boundingbox(): store the union of the window a[lo..lo+n) in
        `slot`; then, with two or more boxes, go on as CalcInner says, and
        with one box subdivide geometrically. `finished` is false when a
        partition ran out of passes. */
    method CalcBoundingBox(slot: nat, n: int, aabbs: array<BoundingBox>, lo: nat, maxslots: nat, passes: nat)
      returns (finished: bool)
      requires Valid() && aabbs != box
      requires slot < maxslots <= KDTREE_NODES && maxslots % 2 == 1
      requires 1 <= n && lo + n <= aabbs.Length
      requires ReadsInBounds(slot, n, lo, maxslots, aabbs.Length)
      modifies split, box, aabbs
      ensures box[..][slot] == UnionOf(old(aabbs[lo..lo + n]))
      ensures KeepsOutside(old(box[..]), old(split[..]), box[..], split[..], slot, maxslots)
      ensures SameOutside(old(aabbs[..]), aabbs[..], lo, lo + n)
      ensures multiset(aabbs[lo..lo + n]) == old(multiset(aabbs[lo..lo + n]))
      ensures finished ==> Built(box[..], split[..], aabbs[lo..lo + n], slot, maxslots)
      decreases n, 2
    {
      ghost var b0, s0 := box[..], split[..];
      var hull := MergeN(aabbs, lo, n);
      box[slot] := hull;
      ghost var bh := box[..];
      KeepsOutsideWrite(b0, s0, slot, maxslots, hull, s0[slot]);
      if n > 1 {
        finished := CalcInner(slot, n, aabbs, lo, maxslots, passes);
        KeepsOutsideTrans(b0, s0, bh, s0, box[..], split[..], slot, slot, maxslots);
      } else {
        SplitBoundingBox(slot, maxslots);
        KeepsOutsideTrans(b0, s0, bh, s0, box[..], split[..], slot, slot, maxslots);
        finished := true;
      }
    }

    /** The rest of calc_boundingbox for two or more boxes, once the union is
        stored: partition the window around the split plane of that box,
        store the split (axis and the mean of the centres at offsets n/2 and
        n/2 + 1) and build the two halves in the children if there are any. */
    method CalcInner(slot: nat, n: int, aabbs: array<BoundingBox>, lo: nat, maxslots: nat, passes: nat)
      returns (finished: bool)
      requires Valid() && aabbs != box
      requires slot < maxslots <= KDTREE_NODES && maxslots % 2 == 1
      requires 2 <= n && lo + n <= aabbs.Length
      requires ReadsInBounds(slot, n, lo, maxslots, aabbs.Length)
      requires box[..][slot] == UnionOf(aabbs[lo..lo + n])
      modifies split, box, aabbs
      ensures box[..][slot] == old(box[..])[slot]
      ensures KeepsOutside(old(box[..]), old(split[..]), box[..], split[..], slot, maxslots)
      ensures SameOutside(old(aabbs[..]), aabbs[..], lo, lo + n)
      ensures multiset(aabbs[lo..lo + n]) == old(multiset(aabbs[lo..lo + n]))
      ensures finished ==> Built(box[..], split[..], aabbs[lo..lo + n], slot, maxslots)
      decreases n, 1
    {
      ghost var b0, s0, a0 := box[..], split[..], aabbs[..];
      var direction, done := Partition(aabbs, lo, n, box[slot], passes);
      ghost var a1 := aabbs[..];
      if !done {
        KeepsOutsideWrite(b0, s0, slot, maxslots, b0[slot], s0[slot]);
        return false;
      }
      var coord := WriteSplit(slot, n, aabbs, lo, direction);
      ghost var s1 := split[..];
      KeepsOutsideWrite(b0, s0, slot, maxslots, b0[slot], Plane(direction, coord));
      if Left(slot) >= maxslots {
        finished := true;
      } else {
        RightChildFits(slot, maxslots);
        finished := CalcChildren(slot, n, aabbs, lo, maxslots, passes);
      }
      ghost var b3, s3, a3 := box[..], split[..], aabbs[..];
      InnerCompose(b0, s0, s1, b3, s3, a0, a1, a3, lo, n, direction, coord, slot, maxslots, finished);
    }

    /** The split calc_boundingbox stores for a partitioned window of two
        or more boxes: the partition's axis, at the mean of the centres on
        that axis of the boxes at offsets n/2 and n/2 + 1. */
    method WriteSplit(slot: nat, n: int, aabbs: array<BoundingBox>, lo: nat, direction: int) returns (coord: real)
      requires Valid() && slot < KDTREE_NODES && 0 <= direction < 3
      requires 2 <= n && lo + n <= aabbs.Length && lo + n / 2 + 1 < aabbs.Length
      modifies split
      ensures split[..] == old(split[..])[slot := Plane(direction, coord)]
      ensures coord == (Center(aabbs[lo + n / 2], direction) + Center(aabbs[lo + n / 2 + 1], direction)) / 2.0
      ensures n >= 3 ==> coord == (Center(aabbs[lo..lo + n][n / 2], direction) + Center(aabbs[lo..lo + n][n / 2 + 1], direction)) / 2.0
    {
      var leftN := n / 2;
      var lower, upper := aabbs[lo + leftN], aabbs[lo + leftN + 1];
      coord := (Center(lower, direction) + Center(upper, direction)) / 2.0;
      SplitCoord(aabbs[..], lo, n, leftN, lower, upper, direction, coord);
      split[slot] := Plane(direction, coord);
    }

    /** The two recursive calls of calc_boundingbox for a node whose union
        and split are written: the front half n/2 of the window goes to the
        left child, the rest to the right child; the second call is not
        made when the first one fails. */
    method CalcChildren(slot: nat, n: int, aabbs: array<BoundingBox>, lo: nat, maxslots: nat, passes: nat)
      returns (finished: bool)
      requires Valid() && aabbs != box
      requires Right(slot) < maxslots <= KDTREE_NODES && maxslots % 2 == 1
      requires 2 <= n && lo + n <= aabbs.Length
      requires ReadsInBounds(slot, n, lo, maxslots, aabbs.Length)
      modifies split, box, aabbs
      ensures box[..][slot] == old(box[..])[slot] && split[..][slot] == old(split[..])[slot]
      ensures KeepsOutside(old(box[..]), old(split[..]), box[..], split[..], slot, maxslots)
      ensures SameOutside(old(aabbs[..]), aabbs[..], lo, lo + n)
      ensures multiset(aabbs[lo..lo + n][..n / 2]) == old(multiset(aabbs[lo..lo + n][..n / 2]))
      ensures multiset(aabbs[lo..lo + n][n / 2..]) == old(multiset(aabbs[lo..lo + n][n / 2..]))
      ensures finished ==> Built(box[..], split[..], aabbs[lo..lo + n][..n / 2], Left(slot), maxslots)
      ensures finished ==> Built(box[..], split[..], aabbs[lo..lo + n][n / 2..], Right(slot), maxslots)
      decreases n, 0
    {
      ghost var b1, s1, a1 := box[..], split[..], aabbs[..];
      ChildReads(slot, n, lo, maxslots, aabbs.Length);
      var leftN := n / 2;
      var rightLo, rightN := lo + leftN, n - leftN;
      assert ReadsInBounds(Right(slot), rightN, rightLo, maxslots, aabbs.Length);
      finished := CalcBoundingBox(Left(slot), leftN, aabbs, lo, maxslots, passes);
      ghost var leftFinished := finished;
      ghost var b2, s2, a2 := box[..], split[..], aabbs[..];
      if finished {
        finished := CalcBoundingBox(Right(slot), rightN, aabbs, rightLo, maxslots, passes);
      }
      ghost var b3, s3, a3 := box[..], split[..], aabbs[..];
      ChildrenCompose(b1, s1, b2, s2, b3, s3, a1, a2, a3, lo, n, leftN, rightLo, rightN, slot, maxslots,
                      leftFinished, finished);
    }

    /** kdtree_build(): pick the depth for n boxes, build the tree from the
        root over a[0..n) when n > 0, then zero the boxes of every slot of
        the tree. `built` is the box array just before the zeroing. */
    method Build(n: int, aabbs: array<BoundingBox>, passes: nat) returns (finished: bool, ghost built: seq<BoundingBox>)
      requires Valid() && aabbs != box
      requires n <= aabbs.Length && ReadsInBounds(0, n, 0, Slots(TreeDepth(n)), aabbs.Length)
      modifies this, split, box, aabbs
      ensures Valid() && depth == TreeDepth(n)
      ensures 1 <= Slots(depth) <= KDTREE_NODES && Slots(depth) % 2 == 1
      ensures forall i :: 0 <= i < Slots(depth) ==> box[i] == Zero
      ensures NestedSet(box[..], Slots(depth)) && TightSet(box[..], Slots(depth))
      ensures forall i :: Slots(depth) <= i < KDTREE_NODES ==> box[i] == old(box[i]) && split[i] == old(split[i])
      ensures n <= 0 ==> finished && split[..] == old(split[..]) && aabbs[..] == old(aabbs[..])
      ensures n > 0 ==> SameOutside(old(aabbs[..]), aabbs[..], 0, n) && multiset(aabbs[..]) == old(multiset(aabbs[..]))
      ensures n > 0 && finished ==> |built| == KDTREE_NODES && Built(built, split[..], aabbs[0..n], 0, Slots(depth))
      ensures n > 0 && finished ==> RoutingDefined(split[..], Slots(depth))
    {
      var d := BuildDepth(n);
      depth := d;
      SlotsFit(d);
      var maxslots := Pow2(d) - 1;
      finished, built := BuildNodes(n, aabbs, maxslots, passes);
      ghost var s1, a1 := split[..], aabbs[..];
      ZeroBoxes(maxslots);
      assert split[..] == s1 && aabbs[..] == a1;
      ZeroedNestedSet(box[..], maxslots);
      ZeroedTightSet(box[..], maxslots);
    }

    /** The calc_boundingbox(0, n, a) call of kdtree_build(), made only when
        n > 0; `built` is the box array it leaves. */
    method BuildNodes(n: int, aabbs: array<BoundingBox>, maxslots: nat, passes: nat) returns (finished: bool, ghost built: seq<BoundingBox>)
      requires Valid() && aabbs != box
      requires 0 < maxslots <= KDTREE_NODES && maxslots % 2 == 1
      requires n <= aabbs.Length && ReadsInBounds(0, n, 0, maxslots, aabbs.Length)
      modifies split, box, aabbs
      ensures forall i :: maxslots <= i < KDTREE_NODES ==> box[i] == old(box[i]) && split[i] == old(split[i])
      ensures n <= 0 ==> finished && split[..] == old(split[..]) && aabbs[..] == old(aabbs[..]) && box[..] == old(box[..])
      ensures n > 0 ==> SameOutside(old(aabbs[..]), aabbs[..], 0, n) && multiset(aabbs[..]) == old(multiset(aabbs[..]))
      ensures n > 0 && finished ==> |built| == KDTREE_NODES && Built(built, split[..], aabbs[0..n], 0, maxslots)
      ensures n > 0 && finished ==> RoutingDefined(split[..], maxslots)
    {
      finished := true;
      built := box[..];
      if n <= 0 {
        return;
      }
      ghost var a0 := aabbs[..];
      finished := CalcBoundingBox(0, n, aabbs, 0, maxslots, passes);
      built := box[..];
      assert aabbs[0..0 + n] == aabbs[0..n];
      if finished {
        assert Built(built, split[..], aabbs[0..n], 0, maxslots);
        BuiltRouting(built, split[..], aabbs[0..n], maxslots);
      }
      WholePermutation(a0, aabbs[..], 0, n);
    }

    /** The memset of kdtree_build(): zero box[0..count), keep the rest. */
    method ZeroBoxes(count: int)
      requires Valid() && 0 <= count <= KDTREE_NODES
      modifies box
      ensures forall k :: 0 <= k < count ==> box[k] == Zero
      ensures forall k :: count <= k < KDTREE_NODES ==> box[k] == old(box[k])
    {
      for i := 0 to count
        invariant forall k :: 0 <= k < i ==> box[k] == Zero
        invariant forall k :: i <= k < KDTREE_NODES ==> box[k] == old(box[k])
      {
        box[i] := Zero;
      }
    }

    /** kdtree_insert(): descend from the root while twice the slot is below
        maxslots, going left when the box's centre on the split axis is at
        most the split coordinate; then merge the box into the slot reached
        and into its ancestors, stopping after a merge that changes nothing
        or after the root. Returns the slot reached by the descent. */
    method Insert(aabb: BoundingBox) returns (slot: int)
      requires Valid() && RoutingDefined(split[..], Slots(depth))
      requires Route(split[..], aabb, 0, Slots(depth)) < KDTREE_NODES
      modifies box
      ensures slot == Route(split[..], aabb, 0, Slots(depth))
      ensures box[..] == Ascend(old(box[..]), slot, aabb)
      ensures NestedSet(old(box[..]), Slots(depth)) && WellFormed(aabb) && !IsUnset(aabb) ==>
        NestedSet(box[..], Slots(depth))
      ensures NestedSet(old(box[..]), Slots(depth)) && WellFormed(aabb) && !IsUnset(aabb) && slot < Slots(depth) ==>
        forall i :: 0 <= i <= slot && InSubtree(slot, i) ==> Contains(box[i], aabb)
      ensures NestedSet(old(box[..]), Slots(depth)) && TightSet(old(box[..]), Slots(depth)) && WellFormed(aabb) && !IsUnset(aabb) ==>
        TightSet(box[..], Slots(depth))
    {
      ghost var b0 := box[..];
      slot := Descend(aabb);
      MergeUp(slot, aabb);
      if NestedSet(b0, Slots(depth)) && WellFormed(aabb) && !IsUnset(aabb) {
        AscendNestedSet(b0, slot, aabb, Slots(depth));
        if TightSet(b0, Slots(depth)) {
          RouteBounds(split[..], aabb, 0, Slots(depth));
          AscendTightSet(b0, slot, aabb, Slots(depth));
        }
        if slot < Slots(depth) {
          AscendEnclosesPath(b0, slot, aabb, Slots(depth));
        }
      }
    }

    /** The descent of kdtree_insert(): from the root, go left when the centre
        of the box on the node's axis is at most the node's plane, right
        otherwise, while slot*2 < maxslots. */
    method Descend(aabb: BoundingBox) returns (slot: int)
      requires Valid() && RoutingDefined(split[..], Slots(depth))
      ensures slot == Route(split[..], aabb, 0, Slots(depth))
    {
      var maxslots := Pow2(depth) - 1;
      slot := 0;
      while slot * 2 < maxslots
        invariant 0 <= slot
        invariant Route(split[..], aabb, slot, maxslots) == Route(split[..], aabb, 0, maxslots)
        decreases maxslots - slot
      {
        var sp := split[slot];
        var c := Center(aabb, sp.dir);
        if c <= sp.coord {
          slot := slot * 2 + 1;
        } else {
          slot := slot * 2 + 2;
        }
      }
    }

    /** The ascent of kdtree_insert(): merge the box into the slot's box and
        its ancestors', stopping after the root or after the first merge that
        changes nothing. */
    method MergeUp(slot: int, aabb: BoundingBox)
      requires Valid() && 0 <= slot < KDTREE_NODES
      modifies box
      ensures box[..] == Ascend(old(box[..]), slot, aabb)
    {
      ghost var b0 := box[..];
      var s := slot;
      while true
        invariant 0 <= s <= slot
        invariant Ascend(box[..], s, aabb) == Ascend(b0, slot, aabb)
        decreases s
      {
        ghost var before := box[..];
        var merged, change := Merge(box[s], aabb);
        box[s] := merged;
        assert box[..] == before[s := merged];
        if !change || s == 0 {
          break;
        }
        s := (s - 1) / 2;
      }
    }
  }
}
