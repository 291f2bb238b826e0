/** partition_ and partition of kdtree.c: an in-place quickselect over a
    window of boxes, keyed by their centre on one axis.

    The source loops `for (;;)` and need not stop (with every centre equal
    and the target rank below the window size the pivot never changes).
    Here the outer loop runs at most `passes` passes and reports whether it
    reached the return statement; everything it promises on return is
    stated under `done`. */
module Partitioning {
  import opened KdTypes
  import opened Boxes

  /** Sum of the centres of s[lo..hi) on one axis. */
  function SumOfCenters(s: seq<BoundingBox>, lo: int, hi: int, axis: int): real
    requires 0 <= lo <= hi <= |s| && 0 <= axis < 3
    decreases hi - lo
  {
    if lo == hi then 0.0 else SumOfCenters(s, lo, hi - 1, axis) + Center(s[hi - 1], axis)
  }

  /** The sum can also be taken from the front. */
  lemma {:induction false} SumOfCentersFront(s: seq<BoundingBox>, lo: int, hi: int, axis: int)
    requires 0 <= lo < hi <= |s| && 0 <= axis < 3
    ensures SumOfCenters(s, lo, hi, axis) == Center(s[lo], axis) + SumOfCenters(s, lo + 1, hi, axis)
    decreases hi - lo
  {
    if lo + 1 < hi {
      SumOfCentersFront(s, lo, hi - 1, axis);
    }
  }

  /** The sum depends only on the boxes in the range. */
  lemma {:induction false} SumOfCentersFrame(s: seq<BoundingBox>, t: seq<BoundingBox>, lo: int, hi: int, axis: int)
    requires 0 <= lo <= hi <= |s| && hi <= |t| && 0 <= axis < 3
    requires forall k :: lo <= k < hi ==> s[k] == t[k]
    ensures SumOfCenters(s, lo, hi, axis) == SumOfCenters(t, lo, hi, axis)
    decreases hi - lo
  {
    if lo < hi {
      SumOfCentersFrame(s, t, lo, hi - 1, axis);
    }
  }

  /** No box of `left` has a centre above that of a box of `right`. */
  ghost predicate Ordered(left: seq<BoundingBox>, right: seq<BoundingBox>, axis: int)
    requires 0 <= axis < 3
  {
    forall x, y {:trigger x in left, y in right} :: x in left && y in right ==> Center(x, axis) <= Center(y, axis)
  }

  lemma {:induction false} SameMembers(s: seq<BoundingBox>, t: seq<BoundingBox>)
    requires multiset(s) == multiset(t)
    ensures forall x :: x in s <==> x in t
  {
    forall x ensures x in s <==> x in t {
      assert x in s <==> x in multiset(s);
      assert x in t <==> x in multiset(t);
    }
  }

  /** Nothing outside a[lo..hi) differs: the parts before and after it are
      those of before. */
  predicate SameOutside(a: seq<BoundingBox>, a': seq<BoundingBox>, lo: int, hi: int)
  {
    |a'| == |a| && 0 <= lo <= hi <= |a| && a'[..lo] == a[..lo] && a'[hi..] == a[hi..]
  }

  /** The k-th box of the window a[lo..lo+n) is a[lo+k]. */
  lemma {:induction false} WindowAt(a: seq<BoundingBox>, lo: int, n: int, k: int)
    requires 0 <= lo && 0 <= k < n && lo + n <= |a|
    ensures a[lo..lo + n][k] == a[lo + k]
  {
  }

  /** SameOutside from a per-index frame. */
  lemma {:induction false} FrameSameOutside(a: seq<BoundingBox>, a': seq<BoundingBox>, lo: int, hi: int)
    requires |a'| == |a| && 0 <= lo <= hi <= |a|
    requires forall k :: 0 <= k < |a| && !(lo <= k < hi) ==> a'[k] == a[k]
    ensures SameOutside(a, a', lo, hi)
  {
    assert a'[..lo] == a[..lo];
    assert a'[hi..] == a[hi..];
  }

  /** A change inside a[lo2..hi2) after one inside a[lo..hi) that contains it. */
  lemma {:induction false} SameOutsideTrans(a: seq<BoundingBox>, b: seq<BoundingBox>, c: seq<BoundingBox>,
                         lo: int, hi: int, lo2: int, hi2: int)
    requires lo <= lo2 <= hi2 <= hi
    requires SameOutside(a, b, lo, hi) && SameOutside(b, c, lo2, hi2)
    ensures SameOutside(a, c, lo, hi)
  {
    assert c[..lo] == c[..lo2][..lo] == b[..lo2][..lo] == b[..lo];
    assert c[hi..] == c[hi2..][hi - hi2..] == b[hi2..][hi - hi2..] == b[hi..];
  }

  /** A change inside a[lo..hi) is a change inside any window containing it. */
  lemma {:induction false} SameOutsideWiden(a: seq<BoundingBox>, b: seq<BoundingBox>, lo: int, hi: int, lo2: int, hi2: int)
    requires 0 <= lo2 <= lo <= hi <= hi2 <= |a|
    requires SameOutside(a, b, lo, hi)
    ensures SameOutside(a, b, lo2, hi2)
  {
    assert b[..lo2] == b[..lo][..lo2] && a[..lo2] == a[..lo][..lo2];
    assert b[hi2..] == b[hi..][hi2 - hi..] && a[hi2..] == a[hi..][hi2 - hi..];
  }

  /** A change inside a[lo..hi) leaves every window before lo as it was. */
  lemma {:induction false} SameBefore(a: seq<BoundingBox>, b: seq<BoundingBox>, lo: int, hi: int, i: int, j: int)
    requires 0 <= i <= j <= lo && SameOutside(a, b, lo, hi)
    ensures b[i..j] == a[i..j]
  {
    assert b[i..j] == b[..lo][i..j] && a[i..j] == a[..lo][i..j];
  }

  /** A change inside a[lo..hi) leaves every window after hi as it was. */
  lemma {:induction false} SameAfter(a: seq<BoundingBox>, b: seq<BoundingBox>, lo: int, hi: int, i: int, j: int)
    requires hi <= i <= j <= |a| && SameOutside(a, b, lo, hi)
    ensures b[i..j] == a[i..j]
  {
    forall k | i <= k < j
      ensures b[k] == a[k]
    {
      assert b[k] == b[hi..][k - hi] && a[k] == a[hi..][k - hi];
    }
  }

  /** The two parts of the window a[lo..lo+n) cut at offset h. */
  lemma {:induction false} WindowHalves(a: seq<BoundingBox>, lo: int, n: int, h: int)
    requires 0 <= lo && 0 <= h <= n && lo + n <= |a|
    ensures a[lo..lo + n][..h] == a[lo..lo + h] && a[lo..lo + n][h..] == a[lo + h..lo + n]
  {
  }

  /** A reordered window with nothing outside it changed reorders the whole. */
  lemma {:induction false} WholePermutation(s: seq<BoundingBox>, t: seq<BoundingBox>, lo: int, hi: int)
    requires SameOutside(s, t, lo, hi)
    requires multiset(t[lo..hi]) == multiset(s[lo..hi])
    ensures multiset(t) == multiset(s)
  {
    assert s == s[..lo] + s[lo..hi] + s[hi..];
    assert t == t[..lo] + t[lo..hi] + t[hi..];
  }

  /** Multisets cancel: equal sums with the same outer terms have equal middles. */
  lemma {:induction false} MultisetCancel(a: multiset<BoundingBox>, b: multiset<BoundingBox>, f: multiset<BoundingBox>, k: multiset<BoundingBox>)
    requires f + a + k == f + b + k
    ensures a == b
  {
    forall x ensures a[x] == b[x] {
      assert (f + a + k)[x] == (f + b + k)[x];
    }
  }

  /** The multiset of a window follows from that of the whole array when
      nothing outside the window differs. */
  lemma {:induction false} WindowPermutation(s: seq<BoundingBox>, t: seq<BoundingBox>, lo: int, hi: int)
    requires 0 <= lo <= hi <= |s| == |t|
    requires multiset(s) == multiset(t)
    requires forall k :: 0 <= k < |s| && !(lo <= k < hi) ==> s[k] == t[k]
    ensures multiset(s[lo..hi]) == multiset(t[lo..hi])
  {
    var front, back := s[..lo], s[hi..];
    assert front == t[..lo] && back == t[hi..];
    assert s == front + s[lo..hi] + back;
    assert t == front + t[lo..hi] + back;
    MultisetCancel(multiset(s[lo..hi]), multiset(t[lo..hi]), multiset(front), multiset(back));
  }

  /** Bounds on the keys of a window survive a reordering of that window. */
  lemma {:induction false} KeysBoundedPermuted(s: seq<BoundingBox>, t: seq<BoundingBox>, lo: int, hi: int, axis: int, lowB: real, highB: real)
    requires 0 <= lo <= hi <= |s| == |t| && 0 <= axis < 3
    requires multiset(s[lo..hi]) == multiset(t[lo..hi])
    ensures (forall j :: lo <= j < hi ==> Center(s[j], axis) >= lowB) ==>
            (forall j :: lo <= j < hi ==> Center(t[j], axis) >= lowB)
    ensures (forall j :: lo <= j < hi ==> Center(s[j], axis) <= highB) ==>
            (forall j :: lo <= j < hi ==> Center(t[j], axis) <= highB)
  {
    SameMembers(s[lo..hi], t[lo..hi]);
    forall j | lo <= j < hi ensures exists i :: lo <= i < hi && s[i] == t[j] {
      assert t[lo..hi][j - lo] == t[j];
      assert t[j] in s[lo..hi];
      var k :| 0 <= k < hi - lo && s[lo..hi][k] == t[j];
      assert s[lo + k] == t[j];
    }
  }

  /** The state of a pass part-way: a[lo..lo+small) is at most the pivot,
      a[lo+big+1..lo+n) above it, and the two sums are those of these parts. */
  ghost predicate PassState(s: seq<BoundingBox>, lo: int, n: int, axis: int, pivot: real,
                            small: int, big: int, smallSum: real, bigSum: real)
  {
    0 <= lo && lo + n <= |s| && 0 <= small <= big + 1 <= n && 0 <= axis < 3 &&
    (forall k :: lo <= k < lo + small ==> Center(s[k], axis) <= pivot) &&
    (forall k :: lo + big + 1 <= k < lo + n ==> Center(s[k], axis) > pivot) &&
    smallSum == SumOfCenters(s, lo, lo + small, axis) &&
    bigSum == SumOfCenters(s, lo + big + 1, lo + n, axis)
  }

  /** The small pointer passes a box whose centre is at most the pivot. */
  lemma {:induction false} SmallStep(s: seq<BoundingBox>, lo: int, n: int, axis: int, pivot: real,
                  small: int, big: int, smallSum: real, bigSum: real)
    requires PassState(s, lo, n, axis, pivot, small, big, smallSum, bigSum)
    requires small <= big && Center(s[lo + small], axis) <= pivot
    ensures PassState(s, lo, n, axis, pivot, small + 1, big, smallSum + Center(s[lo + small], axis), bigSum)
  {
  }

  /** A box above the pivot is exchanged with the one under the big pointer. */
  lemma {:induction false} BigStep(pre: seq<BoundingBox>, post: seq<BoundingBox>, lo: int, n: int, axis: int, pivot: real,
                small: int, big: int, smallSum: real, bigSum: real)
    requires PassState(pre, lo, n, axis, pivot, small, big, smallSum, bigSum)
    requires small <= big && Center(pre[lo + small], axis) > pivot
    requires post == pre[lo + small := pre[lo + big]][lo + big := pre[lo + small]]
    ensures PassState(post, lo, n, axis, pivot, small, big - 1, smallSum, bigSum + Center(pre[lo + small], axis))
  {
    SumOfCentersFrame(pre, post, lo, lo + small, axis);
    SumOfCentersFrame(pre, post, lo + big + 1, lo + n, axis);
    SumOfCentersFront(post, lo + big, lo + n, axis);
  }

  /** The exchange of two boxes through `tmp` in partition_. */
  method Swap(a: array<BoundingBox>, i: int, j: int)
    requires 0 <= i <= j < a.Length
    modifies a
    ensures a[..] == old(a[..])[i := old(a[j])][j := old(a[i])]
    ensures multiset(a[..]) == old(multiset(a[..]))
  {
    var tmp := a[i];
    a[i] := a[j];
    a[j] := tmp;
  }

  /** The else-branch of a pass: exchange the box under the small pointer,
      whose centre is above the pivot, with the one under the big pointer. */
  method Exchange(a: array<BoundingBox>, lo: int, n: int, axis: int, pivot: real,
                  small: int, big: int, smallSum: real, bigSum: real)
    requires PassState(a[..], lo, n, axis, pivot, small, big, smallSum, bigSum)
    requires small <= big && Center(a[lo + small], axis) > pivot
    modifies a
    ensures PassState(a[..], lo, n, axis, pivot, small, big - 1, smallSum, bigSum + Center(old(a[lo + small]), axis))
    ensures multiset(a[..]) == old(multiset(a[..]))
    ensures forall k :: 0 <= k < a.Length && !(lo <= k < lo + n) ==> a[k] == old(a[k])
  {
    ghost var pre := a[..];
    Swap(a, lo + small, lo + big);
    BigStep(pre, a[..], lo, n, axis, pivot, small, big, smallSum, bigSum);
  }

  /** One pass of partition_ (its inner while loop) over a[lo..lo+n):
      the boxes whose centre is at most `pivot` end up in front, the rest
      behind, and the two sums of centres are accumulated on the way; that
      is PassState with the two pointers crossed (big == small - 1). */
  method TwoPointerPass(a: array<BoundingBox>, lo: int, n: int, axis: int, pivot: real)
    returns (small: int, smallSum: real, bigSum: real)
    requires 0 <= lo && 0 <= n && lo + n <= a.Length && 0 <= axis < 3
    modifies a
    ensures 0 <= small <= n
    ensures PassState(a[..], lo, n, axis, pivot, small, small - 1, smallSum, bigSum)
    ensures multiset(a[..]) == old(multiset(a[..]))
    ensures forall k :: 0 <= k < a.Length && !(lo <= k < lo + n) ==> a[k] == old(a[k])
  {
    small := 0;
    var big := n - 1;
    smallSum, bigSum := 0.0, 0.0;
    while small <= big
      invariant PassState(a[..], lo, n, axis, pivot, small, big, smallSum, bigSum)
      invariant multiset(a[..]) == old(multiset(a[..]))
      invariant forall k :: 0 <= k < a.Length && !(lo <= k < lo + n) ==> a[k] == old(a[k])
    {
      var t := Center(a[lo + small], axis);
      if t <= pivot {
        SmallStep(a[..], lo, n, axis, pivot, small, big, smallSum, bigSum);
        smallSum := smallSum + t;
        small := small + 1;
      } else {
        Exchange(a, lo, n, axis, pivot, small, big, smallSum, bigSum);
        bigSum := bigSum + t;
        big := big - 1;
      }
    }
  }

  /** Every box of s[lo..hi) has the same centre on `axis`. */
  ghost predicate SameCenters(s: seq<BoundingBox>, lo: int, hi: int, axis: int)
    requires 0 <= lo <= hi <= |s| && 0 <= axis < 3
  {
    lo < hi ==> forall k :: lo <= k < hi ==> Center(s[k], axis) == Center(s[lo], axis)
  }

  /** Reordering a window keeps its centres all equal. */
  lemma {:induction false} SameCentersPermuted(s: seq<BoundingBox>, t: seq<BoundingBox>, lo: int, hi: int, axis: int)
    requires 0 <= lo <= hi <= |s| == |t| && 0 <= axis < 3
    requires multiset(s[lo..hi]) == multiset(t[lo..hi])
    requires SameCenters(s, lo, hi, axis)
    ensures SameCenters(t, lo, hi, axis)
  {
    SameMembers(s[lo..hi], t[lo..hi]);
    forall k | lo <= k < hi ensures Center(t[k], axis) == Center(s[lo], axis) {
      assert t[lo..hi][k - lo] == t[k];
      assert t[k] in s[lo..hi];
      var k' :| 0 <= k' < hi - lo && s[lo..hi][k'] == t[k];
      assert s[lo + k'] == t[k];
    }
  }

  /** A pass over a window whose centres are all equal puts every box on
      one side, whatever the pivot: all in front or all behind. */
  lemma {:induction false} SameCentersPass(s: seq<BoundingBox>, lo: int, n: int, axis: int, pivot: real,
                                           small: int, smallSum: real, bigSum: real)
    requires PassState(s, lo, n, axis, pivot, small, small - 1, smallSum, bigSum)
    requires SameCenters(s, lo, lo + n, axis)
    ensures small == 0 || small == n
  {
  }

  /** The boxes of a[lo..lo+part) have centres no greater than those of
      a[lo+part..lo+n). */
  ghost predicate SplitAt(s: seq<BoundingBox>, lo: int, n: int, part: int, axis: int)
    requires 0 <= lo && 0 <= part <= n && lo + n <= |s| && 0 <= axis < 3
  {
    forall i, j :: lo <= i < lo + part <= j < lo + n ==> Center(s[i], axis) <= Center(s[j], axis)
  }

  /** What earlier passes of partition_ have settled about a[lo..lo+n) while
      the search goes on in a[base..base+m): every box left of `base` is at
      most `lowT` and every box from `base` on at least `lowT`, and likewise
      around `base + m` with `highT`. */
  ghost predicate Fenced(s: seq<BoundingBox>, lo: int, n: int, base: int, m: int, axis: int, lowT: real, highT: real)
    requires 0 <= lo <= base && 0 <= m && base + m <= lo + n <= |s| && 0 <= axis < 3
  {
    (base > lo ==>
      (forall i :: lo <= i < base ==> Center(s[i], axis) <= lowT) &&
      (forall j :: base <= j < lo + n ==> Center(s[j], axis) >= lowT)) &&
    (base + m < lo + n ==>
      (forall i :: lo <= i < base + m ==> Center(s[i], axis) <= highT) &&
      (forall j :: base + m <= j < lo + n ==> Center(s[j], axis) >= highT))
  }

  /** Reordering the current window keeps the fences. */
  lemma {:induction false} FencedPermuted(s: seq<BoundingBox>, t: seq<BoundingBox>, lo: int, n: int, base: int, m: int,
                       axis: int, lowT: real, highT: real)
    requires 0 <= lo <= base && 0 <= m && base + m <= lo + n <= |s| == |t| && 0 <= axis < 3
    requires multiset(s[base..base + m]) == multiset(t[base..base + m])
    requires forall k :: 0 <= k < |s| && !(base <= k < base + m) ==> s[k] == t[k]
    requires Fenced(s, lo, n, base, m, axis, lowT, highT)
    ensures Fenced(t, lo, n, base, m, axis, lowT, highT)
  {
    KeysBoundedPermuted(s, t, base, base + m, axis, lowT, highT);
  }

  /** A pass that put fewer than `p` boxes in front: the search moves right
      of them, and `newLow` separates everything in front of the new window
      from everything from it on. */
  lemma {:induction false} NarrowRight(s: seq<BoundingBox>, lo: int, n: int, base: int, m: int, axis: int,
                    lowT: real, highT: real, pivot: real, small: int, smallSum: real, bigSum: real)
    returns (newLow: real)
    requires 0 <= lo <= base && 0 <= m && base + m <= lo + n <= |s| && 0 <= axis < 3
    requires Fenced(s, lo, n, base, m, axis, lowT, highT)
    requires PassState(s, base, m, axis, pivot, small, small - 1, smallSum, bigSum)
    ensures Fenced(s, lo, n, base + small, m - small, axis, newLow, highT)
  {
    var cap := if base + m < lo + n then Min(pivot, highT) else pivot;
    newLow := if base > lo then Max(lowT, cap) else cap;
  }

  /** A pass that put more than `p` boxes in front: the search stays among
      them, and `newHigh` separates them from the boxes behind. */
  lemma {:induction false} NarrowLeft(s: seq<BoundingBox>, lo: int, n: int, base: int, m: int, axis: int,
                   lowT: real, highT: real, pivot: real, small: int, smallSum: real, bigSum: real)
    returns (newHigh: real)
    requires 0 <= lo <= base && 0 <= m && base + m <= lo + n <= |s| && 0 <= axis < 3
    requires Fenced(s, lo, n, base, m, axis, lowT, highT)
    requires PassState(s, base, m, axis, pivot, small, small - 1, smallSum, bigSum)
    ensures Fenced(s, lo, n, base, small, axis, lowT, newHigh)
  {
    var floor := if base > lo then Max(pivot, lowT) else pivot;
    newHigh := if base + m < lo + n then Min(highT, floor) else floor;
  }

  /** A pass that put exactly `p` boxes in front finishes the search. */
  lemma {:induction false} FencedDone(s: seq<BoundingBox>, lo: int, n: int, part: int, base: int, m: int, axis: int,
                   lowT: real, highT: real, pivot: real, p: int, smallSum: real, bigSum: real)
    requires 0 <= lo <= base && 0 <= m && base + m <= lo + n <= |s| && 0 <= axis < 3
    requires 0 <= p <= m && base + p == lo + part
    requires Fenced(s, lo, n, base, m, axis, lowT, highT)
    requires PassState(s, base, m, axis, pivot, p, p - 1, smallSum, bigSum)
    ensures SplitAt(s, lo, n, part, axis)
  {
    forall i, j | lo <= i < lo + part <= j < lo + n
      ensures Center(s[i], axis) <= Center(s[j], axis)
    {
      if i >= base && j >= base + m {
        assert Center(s[i], axis) <= highT;
      }
    }
  }

  /** One pass over the current window a[base..base+m) of partition_: it
      keeps what earlier passes settled and leaves the pass's own result. */
  method FencedPass(a: array<BoundingBox>, lo: int, n: int, base: int, m: int, axis: int, pivot: real,
                    ghost lowT: real, ghost highT: real)
    returns (small: int, smallSum: real, bigSum: real)
    requires 0 <= lo <= base && 0 <= m && base + m <= lo + n <= a.Length && 0 <= axis < 3
    requires Fenced(a[..], lo, n, base, m, axis, lowT, highT)
    modifies a
    ensures 0 <= small <= m
    ensures PassState(a[..], base, m, axis, pivot, small, small - 1, smallSum, bigSum)
    ensures Fenced(a[..], lo, n, base, m, axis, lowT, highT)
    ensures multiset(a[..]) == old(multiset(a[..]))
    ensures forall k :: 0 <= k < a.Length && !(lo <= k < lo + n) ==> a[k] == old(a[k])
    ensures SameCenters(old(a[..]), base, base + m, axis) ==>
      (small == 0 || small == m) && SameCenters(a[..], base, base + m, axis)
  {
    ghost var before := a[..];
    small, smallSum, bigSum := TwoPointerPass(a, base, m, axis, pivot);
    WindowPermutation(before, a[..], base, base + m);
    FencedPermuted(before, a[..], lo, n, base, m, axis, lowT, highT);
    if SameCenters(before, base, base + m, axis) {
      SameCentersPermuted(before, a[..], base, base + m, axis);
      SameCentersPass(a[..], base, m, axis, pivot, small, smallSum, bigSum);
    }
  }

  /** The float division that yields the next pivot; a zero divisor gives an
      infinity or a NaN, for which the model picks an arbitrary real. */
  method Quotient(sum: real, count: int) returns (q: real)
    ensures count != 0 ==> q == sum / count as real
  {
    if count != 0 {
      q := sum / count as real;
    } else {
      q :| true;
    }
  }

  /** One pass of the outer loop of partition_ on the current window
      a[base..base+m), whose target rank is p: it either finds p boxes in
      front and the search is over, or narrows the window to the side that
      holds the target and computes the next pivot as the source does. */
  method SelectPass(a: array<BoundingBox>, lo: int, n: int, part: int, index: int,
                    base: int, m: int, p: int, piv: real, ghost lowT: real, ghost highT: real)
    returns (found: bool, base2: int, m2: int, p2: int, piv2: real, ghost low2: real, ghost high2: real, ghost small: int)
    requires 0 <= lo <= base && 0 <= p <= m && base + m <= lo + n <= a.Length && base + p == lo + part && 0 <= index < 3
    requires Fenced(a[..], lo, n, base, m, index, lowT, highT)
    modifies a
    ensures 0 <= small <= m && (found <==> small == p)
    ensures found ==> SplitAt(a[..], lo, n, part, index)
    ensures !found && small < p ==> base2 == base + small && m2 == m - small && p2 == p - small
    ensures !found && small < p && m2 - small != 0 ==>
      piv2 == SumOfCenters(a[..], base2, base2 + m2, index) / (m2 - small) as real
    ensures !found && small > p ==>
      base2 == base && m2 == small && p2 == p &&
      piv2 == SumOfCenters(a[..], base, base + small, index) / small as real
    ensures !found ==> lo <= base2 && 0 <= p2 <= m2 && base2 + m2 <= lo + n && base2 + p2 == lo + part
    ensures !found ==> Fenced(a[..], lo, n, base2, m2, index, low2, high2)
    ensures multiset(a[..]) == old(multiset(a[..]))
    ensures forall k :: 0 <= k < a.Length && !(lo <= k < lo + n) ==> a[k] == old(a[k])
    ensures 0 < p < m && SameCenters(old(a[..]), base, base + m, index) ==>
      !found && 0 < p2 < m2 && SameCenters(a[..], base2, base2 + m2, index)
  {
    var smallIndex, smallSum, bigSum := FencedPass(a, lo, n, base, m, index, piv, lowT, highT);
    ghost var after := a[..];
    base2, m2, p2, piv2, low2, high2, small := base, m, p, piv, lowT, highT, smallIndex;
    found := smallIndex == p;
    if found {
      FencedDone(after, lo, n, part, base, m, index, lowT, highT, piv, p, smallSum, bigSum);
    } else if smallIndex < p {
      low2 := NarrowRight(after, lo, n, base, m, index, lowT, highT, piv, smallIndex, smallSum, bigSum);
      base2 := base + smallIndex;
      m2 := m - smallIndex;
      p2 := p - smallIndex;
      piv2 := Quotient(bigSum, m2 - smallIndex);
    } else {
      high2 := NarrowLeft(after, lo, n, base, m, index, lowT, highT, piv, smallIndex, smallSum, bigSum);
      m2 := smallIndex;
      piv2 := Quotient(smallSum, smallIndex);
    }
  }

  /** partition_(): rearrange a[lo..lo+n) so that, once it returns, the
      first `part` boxes have centres no greater than those of the others.

      Faithful to the source, the pivot after a pass that fell short is
      computed from the already-reduced `n`, so it is the big-side sum over
      `n - 2*small_index` of the old window and not the mean; when that
      divisor is zero the float division gives an infinity or a NaN, which
      the model stands for by an arbitrary pivot. */
  method Quickselect(a: array<BoundingBox>, lo: int, n: int, part: int, index: int, pivot: real, passes: nat)
    returns (done: bool)
    requires 0 <= lo && 0 <= part <= n && lo + n <= a.Length && 0 <= index < 3
    modifies a
    ensures multiset(a[..]) == old(multiset(a[..]))
    ensures multiset(a[lo..lo + n]) == old(multiset(a[lo..lo + n]))
    ensures forall k :: 0 <= k < a.Length && !(lo <= k < lo + n) ==> a[k] == old(a[k])
    ensures done ==> SplitAt(a[..], lo, n, part, index)
    ensures 0 < part < n && SameCenters(old(a[..]), lo, lo + n, index) ==> !done
  {
    ghost var a0 := a[..];
    done := SelectPasses(a, lo, n, part, index, pivot, passes);
    WindowPermutation(a0, a[..], lo, lo + n);
    assert a[lo..lo + n] == a[..][lo..lo + n];
    assert old(a[lo..lo + n]) == a0[lo..lo + n];
  }

  /** The `for (;;)` loop of partition_(), run for at most `passes` passes. */
  method SelectPasses(a: array<BoundingBox>, lo: int, n: int, part: int, index: int, pivot: real, passes: nat)
    returns (done: bool)
    requires 0 <= lo && 0 <= part <= n && lo + n <= a.Length && 0 <= index < 3
    modifies a
    ensures multiset(a[..]) == old(multiset(a[..]))
    ensures forall k :: 0 <= k < a.Length && !(lo <= k < lo + n) ==> a[k] == old(a[k])
    ensures done ==> SplitAt(a[..], lo, n, part, index)
    ensures 0 < part < n && SameCenters(old(a[..]), lo, lo + n, index) ==> !done
  {
    // The current window is a[base..base+m); the target index base + p stays lo + part.
    var base, m, p, piv := lo, n, part, pivot;
    ghost var lowT, highT := 0.0, 0.0;
    ghost var stuck := 0 < part < n && SameCenters(a[..], lo, lo + n, index);
    var count := 0;
    ghost var small := 0;
    done := false;
    while count < passes
      invariant lo <= base && 0 <= p <= m && base + m <= lo + n && base + p == lo + part
      invariant Fenced(a[..], lo, n, base, m, index, lowT, highT)
      invariant multiset(a[..]) == old(multiset(a[..]))
      invariant forall k :: 0 <= k < a.Length && !(lo <= k < lo + n) ==> a[k] == old(a[k])
      invariant stuck ==> !done && 0 < p < m && SameCenters(a[..], base, base + m, index)
    {
      count := count + 1;
      done, base, m, p, piv, lowT, highT, small := SelectPass(a, lo, n, part, index, base, m, p, piv, lowT, highT);
      if done {
        break;
      }
    }
  }


  /** partition(): select around the midpoint of the axis split_box picks
      for `bb`, with the target rank n/2, and report that axis. */
  method Partition(a: array<BoundingBox>, lo: int, n: int, bb: BoundingBox, passes: nat)
    returns (direction: int, done: bool)
    requires 0 <= lo && 0 <= n && lo + n <= a.Length
    modifies a
    ensures direction == SplitBox(bb).dir
    ensures multiset(a[..]) == old(multiset(a[..]))
    ensures multiset(a[lo..lo + n]) == old(multiset(a[lo..lo + n]))
    ensures SameOutside(old(a[..]), a[..], lo, lo + n)
    ensures done ==> Ordered(a[lo..lo + n][..n / 2], a[lo..lo + n][n / 2..], direction)
    ensures n >= 2 && SameCenters(old(a[..]), lo, lo + n, direction) ==> !done
  {
    var part := n / 2;
    var p := SplitBox(bb);
    direction := p.dir;
    done := Quickselect(a, lo, n, part, direction, p.coord, passes);
    FrameSameOutside(old(a[..]), a[..], lo, lo + n);
    if done {
      SplitAtOrdered(a[..], lo, n, part, direction);
    }
  }

  /** The index form of the split, read on the window as two sequences. */
  lemma {:induction false} SplitAtOrdered(s: seq<BoundingBox>, lo: int, n: int, part: int, axis: int)
    requires 0 <= lo && 0 <= part <= n && lo + n <= |s| && 0 <= axis < 3
    requires SplitAt(s, lo, n, part, axis)
    ensures Ordered(s[lo..lo + n][..part], s[lo..lo + n][part..], axis)
  {
    var w := s[lo..lo + n];
    forall x, y | x in w[..part] && y in w[part..]
      ensures Center(x, axis) <= Center(y, axis)
    {
      var i :| 0 <= i < part && w[..part][i] == x;
      var j :| 0 <= j < n - part && w[part..][j] == y;
      assert s[lo + i] == x && s[lo + part + j] == y;
    }
  }

  /** Reordering either side keeps the two sides ordered. */
  lemma {:induction false} OrderedPermuted(l: seq<BoundingBox>, r: seq<BoundingBox>, l': seq<BoundingBox>, r': seq<BoundingBox>, axis: int)
    requires 0 <= axis < 3
    requires multiset(l) == multiset(l') && multiset(r) == multiset(r')
    requires Ordered(l, r, axis)
    ensures Ordered(l', r', axis)
  {
    SameMembers(l, l');
    SameMembers(r, r');
  }
}
