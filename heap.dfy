/** The array-heap addressing of the tree: node `i` has children `2i+1` and
    `2i+2` and parent `(i-1)/2`. */
module HeapIndex {

  function Left(i: nat): nat { 2 * i + 1 }
  function Right(i: nat): nat { 2 * i + 2 }

  function Parent(i: nat): (p: nat)
    requires i > 0
    ensures p < i
    ensures i == Left(p) || i == Right(p)
  {
    (i - 1) / 2
  }

  lemma {:induction false} ParentOfChildren(s: nat)
    ensures Parent(Left(s)) == s && Parent(Right(s)) == s
  {
  }

  /** In a full tree (an odd slot count), a node with a left child has a right one. */
  lemma {:induction false} RightChildFits(s: nat, maxslots: nat)
    requires maxslots % 2 == 1 && Left(s) < maxslots
    ensures Right(s) < maxslots
  {
  }

  /** `i` is `s` or a descendant of `s`. */
  ghost predicate InSubtree(i: nat, s: nat)
    decreases i
  {
    i == s || (i > s && InSubtree(Parent(i), s))
  }

  lemma {:induction false} SubtreeAtLeastRoot(i: nat, s: nat)
    requires InSubtree(i, s)
    ensures s <= i
  {
  }

  /** A proper descendant of `s` lies at or below one of its children. */
  lemma {:induction false} BelowChild(i: nat, s: nat)
    requires InSubtree(i, s) && i != s
    ensures i >= Left(s)
    ensures InSubtree(i, Left(s)) || InSubtree(i, Right(s))
    decreases i
  {
    var p := Parent(i);
    if p == s {
    } else {
      BelowChild(p, s);
    }
  }

  /** The subtree of a child lies inside the subtree of its parent. */
  lemma {:induction false} ChildSubtreeInside(i: nat, c: nat)
    requires c > 0 && InSubtree(i, c)
    ensures InSubtree(i, Parent(c)) && i != Parent(c)
    decreases i
  {
    if i != c {
      ChildSubtreeInside(Parent(i), c);
    }
  }

  /** The subtrees of the two children of a node do not meet. */
  lemma {:induction false} SiblingsDisjoint(i: nat, s: nat)
    ensures !(InSubtree(i, Left(s)) && InSubtree(i, Right(s)))
    decreases i
  {
    if i > Right(s) {
      SiblingsDisjoint(Parent(i), s);
    }
  }

  /** What lies above the parent of `s` lies above `s`. */
  lemma {:induction false} AncestorOfParent(s: nat, i: nat)
    requires s > 0
    ensures InSubtree(Parent(s), i) ==> InSubtree(s, i)
  {
    if InSubtree(Parent(s), i) {
      SubtreeAtLeastRoot(Parent(s), i);
    }
  }

  /** Every slot is in the subtree of the root. */
  lemma {:induction false} InRootSubtree(i: nat)
    ensures InSubtree(i, 0)
    decreases i
  {
    if i > 0 {
      InRootSubtree(Parent(i));
    }
  }
}
