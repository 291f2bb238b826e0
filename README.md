# kdtree in Dafny

A model of cloudwu/kdtree, a small C library that packs a k-d tree over 3-D
axis-aligned bounding boxes into fixed-capacity parallel arrays in heap order:
node `i` has children `2i+1` and `2i+2`, `split[i]` holds its split plane and
`box[i]` its box.
The model covers the build (the depth loop, the recursive builder
`calc_boundingbox` with its in-place quickselect `partition_`, and the
geometric subdivision `split_boundingbox`), the insertion (a descent by split
planes and an upward merge walk), the box helpers, and the packing of an axis
code into the two low bits of a float.

Layout, one module per file:

- `types.dfy` (`KdTypes`): the constants and the `struct boundingbox` of `kdtree.h`, and a `Split` value for one `split[]` entry.
- `heap.dfy` (`HeapIndex`): heap addressing and the subtree relation.
- `encoding.dfy` (`SplitEncoding`): `get_direction` and `combine_direction` on the 32-bit pattern.
- `boxes.dfy` (`Boxes`): `center`, `split_box`, `merge_n` and `merge`.
- `partition.dfy` (`Partitioning`): `partition_` and `partition`, on an `array` in place.
- `tree_spec.dfy` (`TreeSpec`): predicates and functions over snapshots of the two arrays, with their lemmas. These cover what the builder leaves behind (`Built`, `Subdivided`), the depth (`TreeDepth`), the descent (`Route`) and the merge walk (`Ascend`).
- `kdtree.dfy` (`Tree`): `struct kdtree` as the class `KdTree`, with `split` and `box` as arrays of `KDTREE_NODES` entries. Its methods are `split_boundingbox`, `calc_boundingbox`, `kdtree_build` and `kdtree_insert`.

Each imperative operation of `kdtree.c` is a method proved against a specification function or predicate. Separate lemmas state what the source promises about that function.
Coordinates are mathematical reals, so `center` is exactly `(min+max)/2`.

The depth is the one the code computes, not the smallest depth whose leaf level holds the n boxes.
`kdtree.c:175-180` gives `floor(log2 n) + 2`, capped at 10.
Below the cap, the leaf level always has more slots than there are boxes.
So eight boxes give depth 5 (31 slots), where the smallest such depth is 4.
`TreeSpec.DepthBounds` and `TreeSpec.EightBoxesDepth` state this.

`kdtree_build` also zeroes `box[]` after building (`kdtree.c:187`).
So a built tree never keeps the root box of its input; only `split[]` survives.

## Model

| member | source | states |
|---|---|---|
| KdTypes.NodesIsFullTree | kdtree.h:4-11 | KDTREE_NODES (1023) is the slot count `(1<<KDTREE_MAXDEPTH)-1` of a full tree of the maximum depth |
| KdTypes.SlotsFit | kdtree.c:183 | for every depth 1..KDTREE_MAXDEPTH the slot count `(1<<depth)-1` is between 1 and KDTREE_NODES and odd, so every node with a left child has a right child inside the arrays |
| HeapIndex.Parent | kdtree.c:210 | the parent `(s-1)/2` of a non-root slot lies below it and has it as its left or right child |
| KdTypes.Pow2Monotone | kdtree.c:183 | the slot count grows with the depth |
| SplitEncoding.GetDirection | kdtree.c:115-123 | the extracted axis code is in 0..3 |
| SplitEncoding.CombineDirection | kdtree.c:125-134 | reading the direction back gives the code packed in, and every bit other than the two lowest is kept |
| SplitEncoding.CombineTwice | kdtree.c:125-134 | packing twice keeps only the last code; re-packing a pattern's own code changes nothing |
| Boxes.Center | kdtree.c:10-13 | the centre is equidistant from both bounds on the axis and lies between them when the box is well-formed |
| Boxes.Hull | kdtree.c:83-90 | the per-axis min/max of two boxes encloses both, and each of its bounds is a bound of one of them |
| Boxes.HullLeast | kdtree.c:83-90 | any box enclosing both boxes encloses their per-axis min/max: it is the smallest such box |
| Boxes.ContainsTransitive | kdtree.c:94-113 | enclosure is transitive |
| Boxes.GrowBox | kdtree.c:83-90 | the inner axis loop of merge_n turns v1 into the per-axis min/max of v1 and v2 |
| Boxes.MergeN | kdtree.c:77-92 | merge_n leaves the left fold of the per-axis union over the window a[lo..lo+n) |
| Boxes.UnionOfIsHull | kdtree.c:77-92 | that union encloses every box of the window, and each of its six bounds is a bound of some box of it |
| Boxes.HullUnique | kdtree.c:77-92 | a sequence has only one such hull |
| Boxes.HullPermuted | kdtree.c:156-158 | the union of a window does not change when partition reorders the window |
| Boxes.Merged | kdtree.c:94-113 | after merge, v1 encloses v2. If old v1 has both axis-0 bounds zero, v1 becomes v2 and the flag is set. Otherwise v1 becomes the per-axis min/max hull of old v1 and v2 (Boxes.Hull), so it also encloses old v1. The flag is set exactly when some bound of v2 lies outside v1. An unset flag means v1 is unchanged |
| Boxes.Merge | kdtree.c:94-113 | the axis-by-axis loop with its change flag returns exactly what Merged states |
| Boxes.SplitBox | kdtree.c:50-66 | the axis code is in 0..2 and its extent is at least both others. X wins every tie it is in; Y is chosen only when strictly longest; Z only when longer than X. The coordinate is that axis's midpoint |
| Partitioning.Swap | kdtree.c:29-31 | the exchange through `tmp` swaps the two entries and keeps the multiset |
| Partitioning.Exchange | kdtree.c:27-32 | the else branch of a pass moves a box above the pivot behind the big pointer and keeps the pass invariant |
| Partitioning.TwoPointerPass | kdtree.c:18-34 | one pass leaves a[lo..lo+small) at most the pivot and a[lo+small..lo+n) above it, with the two sums of centres. It changes only the window and keeps its multiset |
| Partitioning.SelectPass | kdtree.c:22-46 | a pass either returns with the split at the target rank, or narrows the window to the side that holds the target while keeping what earlier passes settled. `small` is the count of boxes the pass put in front, and the pass returns exactly when it equals the target rank. When it falls short, the window drops those boxes. The next pivot is then the sum of the remaining centres divided by the reduced size minus `small` again, when that divisor is nonzero. When it overshoots, the window keeps those boxes, and the next pivot is their mean. When every centre of the window is equal and the target lies strictly inside it, the pass does not return and the narrowed window has the same shape |
| Partitioning.FencedPass | kdtree.c:18-34 | one pass inside the current window keeps the fences earlier passes set, the multiset and everything outside a[lo..lo+n). When every centre of the window is equal, all boxes land on one side (small is 0 or the window size) and the centres stay equal |
| Partitioning.SameCentersPermuted | kdtree.c:18-34 | a window whose centres are all equal keeps that property when reordered |
| Partitioning.SameCentersPass | kdtree.c:18-34 | after a pass over a window of equal centres, either no box or every box is at or below the pivot |
| Partitioning.Quickselect | kdtree.c:15-48 | partition_ changes only a[lo..lo+n) and keeps its multiset (and that of the whole array). When it returns, no box among the first `part` has a centre above a box after them. When every centre of the window is equal and 0 < part < n, it never returns, whatever the number of passes |
| Partitioning.SelectPasses | kdtree.c:22-47 | the `for (;;)` loop changes only a[lo..lo+n), keeps the multiset, on return leaves the split at rank `part`, and with all centres equal and 0 < part < n does not return |
| Partitioning.Partition | kdtree.c:68-75 | partition selects at rank n/2 around the midpoint of the axis split_box picks for the node's box, and reports that axis. The window keeps its multiset, nothing outside it changes, and on return its front half has no centre above its back half. With two or more boxes whose centres on that axis are all equal, it does not return |
| TreeSpec.HalvingsBounds | kdtree.c:176-179 | a positive n is halved floor(log2 n)+1 times before it reaches 0 |
| TreeSpec.TreeDepth | kdtree.c:175-180 | the depth is between 1 and KDTREE_MAXDEPTH |
| TreeSpec.DepthBounds | kdtree.c:175-180 | depth 1 exactly when n <= 0. For n > 0, 2^(depth-2) <= n, and below the cap n < 2^(depth-1) |
| TreeSpec.EightBoxesDepth | kdtree.c:175-183 | eight boxes give depth 5 and 31 slots |
| TreeSpec.HalvesCover | kdtree.c:144-150 | the two child boxes of split_boundingbox are well-formed, inside the parent, meet at the split plane and together make up the parent |
| TreeSpec.SubdividedNode | kdtree.c:139-151 | a node's split from split_box plus two subdivided children with the halved boxes make a subdivided subtree |
| TreeSpec.SubdividedFrame | kdtree.c:136-152 | what split_boundingbox leaves depends only on the slots of the subtree |
| TreeSpec.SubdividedNested | kdtree.c:136-152 | below a well-formed root box, every box of the subdivided subtree is well-formed and inside its parent's box, and the hull of the root's two children is the root's box |
| TreeSpec.SubdividedPlanes | kdtree.c:136-152 | split_boundingbox writes a plane on a real axis into every slot of the subtree below maxslots |
| TreeSpec.SplitChildrenCompose | kdtree.c:141-151 | the steps at a node with children leave the subtree subdivided, the node's box kept and every slot outside the subtree unchanged |
| TreeSpec.PairReadsPast | kdtree.c:159-160 | a window of two boxes reads the box just past it, so its reads are in bounds exactly when that box exists |
| TreeSpec.EightBoxesReadPast | kdtree.c:159-160 | building eight boxes that fill their array reads one box past the array; a ninth entry makes every read safe |
| TreeSpec.BuiltHull | kdtree.c:156 | the box of a built node is the hull of its window |
| TreeSpec.NodeSplitPermuted | kdtree.c:158-167 | the split written after partition still describes the window once the recursive calls reorder each half |
| TreeSpec.NodeFacts | kdtree.c:156-161 | a node's box is the hull of its final window, and its split has the chosen axis, a front half not above the back half and (for three or more boxes) a coordinate that is the mean of two back-half centres |
| TreeSpec.HalvesPermuted | kdtree.c:166-167 | reordering each half reorders the whole window |
| TreeSpec.NodeBuilt | kdtree.c:154-171 | the union, the split and the two halves built in the children make the node built |
| TreeSpec.InnerBuilt | kdtree.c:157-167 | a node of two or more boxes is built when its hull, its split and (if there are children) both halves are |
| TreeSpec.SplitCoord | kdtree.c:159-160 | the coordinate read at offsets n/2 and n/2+1 of the window is the mean the node's split states |
| TreeSpec.KeepsOutsideTrans | kdtree.c:154-171 | changes confined to a child's subtree are confined to the parent's |
| TreeSpec.KeepsOutsideWrite | kdtree.c:140-161 | writing a node's own slot changes nothing outside its subtree |
| TreeSpec.SiblingKept | kdtree.c:146-151 | the right child's changes leave the node and the left subtree unchanged |
| TreeSpec.TreeAfterChildren | kdtree.c:166-167 | after both recursive calls, the node keeps its box and split, and the left half stays built |
| TreeSpec.HalvesAfterCalls | kdtree.c:166-167 | the left call reorders only the first n/2 boxes, the right call only the rest |
| TreeSpec.HalvesAfterCallsAt | kdtree.c:166-167 | the same for a window cut at any offset: each half is a permutation of what it held and nothing outside the window changed |
| TreeSpec.ArrayAfterChildren | kdtree.c:158-167 | after partition and both calls, the window is a permutation and nothing outside it changed |
| TreeSpec.ChildrenCompose | kdtree.c:166-167 | the two calls together keep the node, keep everything outside it, reorder each half in place and (when finished) leave both halves built |
| TreeSpec.LeftOnlyCompose | kdtree.c:166 | when the left call stops early, the same frame facts hold without the right call |
| TreeSpec.BuiltFrame | kdtree.c:154-171 | what calc_boundingbox leaves depends only on the slots of the subtree |
| TreeSpec.BuiltPlanes | kdtree.c:154-171 | a built subtree has a plane on a real axis in every slot below maxslots |
| TreeSpec.ChildReads | kdtree.c:159-167 | when a node's reads are in bounds, so are its own split reads and those of both recursive calls |
| TreeSpec.FrontHalfBelowSplit | kdtree.c:158-160 | with three or more boxes, no front-half centre lies beyond the split coordinate, so the descent sends those boxes left |
| TreeSpec.FrontBelowMean | kdtree.c:159-160 | a coordinate halfway between two back-half centres is at or above every front-half centre |
| TreeSpec.BackHalfBelowSplit | kdtree.c:159-160 | for three boxes with x-centres 0, 1 and 3 the node's split is x = 2, the mean of the two back-half centres, so the back-half box with centre 1 lies below its own node's plane |
| TreeSpec.PairFrontAboveSplit | kdtree.c:159-160 | for a two-box window with y-centres 5 and 6, followed by a box with y-centre -100, the node splits on y, its halves are ordered, and the coordinate read at n/2 and n/2 + 1 is -47, below the front box's centre |
| TreeSpec.PairFrontRoutedRight | kdtree.c:194-202 | in any tree whose root holds that split, the descent of that front box ends in the right subtree, though the build gave it to the left child |
| TreeSpec.BackHalfRoutedLeft | kdtree.c:194-202 | in any tree whose root holds that split, the descent of that back-half box ends in the left subtree, though the build gave it to the right child |
| TreeSpec.BuiltRouting | kdtree.c:185-186 | after a finished build from the root, every split the insert descent can read is a written plane |
| TreeSpec.RouteBounds | kdtree.c:192-203 | the descent ends in the subtree it starts from, at a slot s with maxslots <= 2s and s <= maxslots+1 |
| TreeSpec.LeftmostOvershoots | kdtree.c:194 | the leftmost leaf 2^(depth-1)-1 passes the test again, so its descent ends at maxslots or maxslots+1; every other leaf stays put |
| TreeSpec.AscendTop | kdtree.c:204-211 | the walk stops at the start slot or one of its ancestors |
| TreeSpec.AscendVisited | kdtree.c:204-211 | every slot the walk visits ends up enclosing the inserted box, and every other slot is unchanged. Each visited slot below the top reported a change; the top is the root or the first slot whose merge reported none |
| TreeSpec.AscendFrame | kdtree.c:204-211 | the walk changes only the start slot and its ancestors, and the start slot encloses the inserted box |
| TreeSpec.AscendEnclosed | kdtree.c:206-207 | a box already inside a set slot's box changes nothing |
| TreeSpec.ZeroedNestedSet | kdtree.c:187 | the all-zero boxes the build leaves meet the nesting invariant NestedSet: every set box has a set parent that encloses it |
| TreeSpec.EnclosingIsSet | kdtree.c:96 | a box enclosing a well-formed box that the empty test does not count as unset is not counted as unset either |
| TreeSpec.ParentMergeEncloses | kdtree.c:94-113 | merging the same box into a child and into a parent that enclosed it (or into an unset child) leaves the parent's result enclosing the child's |
| TreeSpec.NestedSetBelowStep | kdtree.c:206-210 | one merge of the walk followed by the step to the parent keeps the in-progress form of NestedSet |
| TreeSpec.AscendNestedSetBelow | kdtree.c:204-211 | from the in-progress shape of the walk, where a child of the current slot may already have outgrown it but not what the merge there will leave, the rest of the walk restores NestedSet |
| TreeSpec.AscendNestedSet | kdtree.c:204-211 | the merge walk keeps NestedSet for a well-formed inserted box that is not itself counted as unset, from any start slot, including after the early stop |
| TreeSpec.NestedSetAncestors | kdtree.c:204-211 | under NestedSet, a box enclosed by a tree slot is enclosed by every ancestor of that slot |
| TreeSpec.AscendEnclosesPath | kdtree.c:204-211 | an insert into a tree slot of a NestedSet array keeps NestedSet and leaves every box from that slot up to the root enclosing the inserted box, even where the walk stopped early |
| Boxes.HullCommutes | kdtree.c:83-90 | the per-axis min/max of two boxes does not depend on their order |
| Boxes.HullAssociates | kdtree.c:83-90 | merging three boxes gives the same hull however the merges are grouped |
| TreeSpec.ZeroedTightSet | kdtree.c:187 | the all-zero boxes the build leaves meet the minimality invariant TightSet: every set box with two children in the tree is exactly the hull of the children that are set |
| TreeSpec.ParentMergeTight | kdtree.c:94-113 | merging a box into a parent that is the hull of its set children gives the hull of the merged child and its sibling |
| TreeSpec.TightBelowStep | kdtree.c:206-210 | one merge of the walk followed by the step to the parent keeps the in-progress form of TightSet |
| TreeSpec.AscendTightBelow | kdtree.c:204-211 | from the in-progress form, the rest of the walk restores TightSet |
| TreeSpec.AscendTightSet | kdtree.c:204-211 | an insert that starts at a leaf-level slot (limit <= 2s) of a NestedSet and TightSet array keeps TightSet: no box grows beyond the hull of its children |
| TreeSpec.AscendOnUnsetPath | kdtree.c:96-98 | on a path of boxes the empty test counts as unset (as after the zeroing of a build), the walk runs to the root and overwrites every one with the inserted box |
| Tree.BuildDepth | kdtree.c:175-181 | the depth loop computes TreeDepth(n) |
| Tree.KdTree.constructor | kdtree.h:13-17 | storage for a tree: two parallel arrays of KDTREE_NODES entries and a depth in 1..KDTREE_MAXDEPTH, with no split written; nothing is promised about the boxes, which struct kdtree does not initialise |
| Tree.KdTree.SplitBoundingBox | kdtree.c:136-152 | the subtree of `slot` below maxslots is subdivided: each split is split_box of its box, and each child holds the lower or upper half of its parent. The slot's box is kept and nothing outside the subtree changes |
| Tree.KdTree.CalcBoundingBox | kdtree.c:154-171 | the slot holds the union of the window; only the node's subtree and only the window a[lo..lo+n) change, the window as a permutation. When finished, the node is built over the final window |
| Tree.KdTree.CalcInner | kdtree.c:157-167 | for two or more boxes, partition the window, write the split and, when the node has children, build the halves: the node's box is kept, the frame is as above and when finished the node is built |
| Tree.KdTree.WriteSplit | kdtree.c:159-161 | the node's split becomes the partition's axis at the mean of the centres of the boxes at lo+n/2 and lo+n/2+1, for every n >= 2 (for two boxes the second lies just past the window); for three or more boxes both are offsets of the window; no other split changes |
| Tree.KdTree.CalcChildren | kdtree.c:166-167 | the left child is built over the first n/2 boxes and the right over the rest; each half is reordered in place and the node keeps its box and split |
| Tree.KdTree.Build | kdtree.c:173-188 | the depth is TreeDepth(n); box[0..maxslots) is all zero afterwards, so NestedSet and TightSet hold; slots past the tree are untouched. For n <= 0 neither split[] nor the input is touched. For n > 0 the input is permuted within a[0..n), and when finished the tree was built over it with every routing split written |
| Tree.KdTree.BuildNodes | kdtree.c:185-186 | with n <= 0 nothing is written; with n > 0 the root call permutes a[0..n) only, and when finished the tree is built over it with every routing split written. Slots past maxslots are untouched |
| Tree.KdTree.ZeroBoxes | kdtree.c:187 | the memset zeroes box[0..count) and keeps the rest |
| Tree.KdTree.Insert | kdtree.c:190-213 | the returned slot is where the descent ends, and the boxes are those the merge walk from it leaves; split[] and depth are not touched. For a well-formed box not counted as unset, NestedSet is kept, TightSet is kept too when it held before, and when the slot is in the tree every box from it to the root encloses the inserted box |
| Tree.KdTree.Descend | kdtree.c:192-203 | the descent loop ends at Route(split, box, 0, maxslots) |
| Tree.KdTree.MergeUp | kdtree.c:204-211 | the merge loop leaves exactly the boxes Ascend describes |

## Left out

- `print_aabb` and `main` (`kdtree.c:215-254`): they only print demo data.
- `kdtree_box` and `kdtree_range` (`kdtree.h:21-22`): they are declared but not implemented, so there is no behaviour to model.
- Floating point: coordinates are reals. Single-precision rounding of sums and midpoints is not modelled, and neither is the NaN or infinity from a zero divisor.
- The float/integer reinterpretation through a union is not modelled. `split[]` holds the decoded pair `Plane(dir, coord)`, and the bit packing is modelled on its own on `bv32` (`SplitEncoding`). So the descent compares against the exact coordinate, not against the float whose two low mantissa bits carry the axis code.
- Concurrency: the library is single-threaded, and so is the model.
- `int` overflow: none can happen for the depths used (at most 10), and the model's integers are unbounded.
- Partitioning.Quickselect: the `for (;;)` loop need not terminate, for example when every centre is equal and the target rank lies strictly inside the window (0 < part < n). The model runs at most `passes` passes and reports whether it returned. Everything the source promises on return is stated under that flag, and the flag is passed up through CalcBoundingBox, CalcInner, CalcChildren and Build as `finished`.
- Partitioning.SelectPass: when the divisor `n - small_index` is zero (`kdtree.c:42`), the next pivot is an arbitrary real. It stands for the infinity or NaN the float division gives. No ordering claim depends on the pivot value.
- Tree.KdTree.CalcBoundingBox: requires TreeSpec.ReadsInBounds, that is, every `aabbs[left_n+1]` the call and its recursive calls read lies inside the array. The source reads that entry whether it exists or not (`kdtree.c:160`); the model does not give a read past the array a meaning. TreeSpec.PairReadsPast and TreeSpec.EightBoxesReadPast show the reads that go past.
- Tree.KdTree.CalcInner: carries the same in-bounds precondition.
- Tree.KdTree.CalcChildren: carries the same in-bounds precondition.
- Tree.KdTree.WriteSplit: requires the entry at offset n/2 + 1 to lie inside the array, for the same reason.
- Tree.KdTree.Build: requires the same in-bounds condition for the root call. It also requires the input array not to be `box[]` itself.
- Tree.KdTree.BuildNodes: carries the same two preconditions as Build: in-bounds reads for the root call, and an input array other than `box[]`.
- Tree.KdTree.Insert: requires every split the descent reads to be written (TreeSpec.RoutingDefined), and the descent to end inside the arrays. With n == 0 no split is ever written (`kdtree.c:185-186`), and at depth KDTREE_MAXDEPTH the leftmost leaf's descent ends past the arrays (TreeSpec.LeftmostOvershoots). The source reads indeterminate memory in those cases; the model does not give it a meaning. TreeSpec.BuiltRouting discharges the first requirement after a finished build.
- Tree.KdTree.Insert: below depth KDTREE_MAXDEPTH, the leftmost leaf's descent ends at slot maxslots or maxslots+1, which neither the build nor its memset writes. The model merges into whatever that slot holds, as the source does with whatever the storage held; the constructor promises nothing about it.
- Tree.KdTree.Insert: the enclosure of children by parents is stated as TreeSpec.NestedSet, which constrains only boxes the empty test does not count as unset. The build zeroes every box, so a set child beside a zero sibling is the normal state, and the plain form (every box encloses both children) does not hold after a build.
- Tree.KdTree.Insert: models the two-parameter definition (`kdtree.c:191`), not the three-parameter declaration in `kdtree.h:20`.
- Boxes.MergeN: its contract names the left fold UnionOf. That this fold is the smallest box enclosing the window is stated once, in Boxes.UnionOfIsHull.
- TreeSpec.NodeSplit: for a window of exactly two boxes, it says nothing about the split coordinate, because that coordinate is averaged from one box inside the window and one past it (`kdtree.c:160`). Tree.KdTree.WriteSplit states that coordinate for every window size.

## Source behaviours the model keeps

These are as the code is written. Each is modelled faithfully, not corrected; the members named after each one state it:

- `box[]` is zeroed after the build (`kdtree.c:187`): Tree.KdTree.Build and Tree.KdTree.ZeroBoxes. The first insert after a build whose descent ends inside the tree (slot below maxslots) then overwrites every box from that slot to the root (TreeSpec.AscendOnUnsetPath). A descent that ends past the tree merges into a slot the memset does not zero.
- The split coordinate is read from `aabbs[left_n]` and `aabbs[left_n+1]` (`kdtree.c:160`). For a window of two boxes this is one past the window, and for the last window of the input it is one past the array: TreeSpec.PairReadsPast, TreeSpec.EightBoxesReadPast.
- The descent test `slot*2 < maxslots` (`kdtree.c:194`) sends the leftmost leaf one level further, to maxslots or maxslots+1: TreeSpec.LeftmostOvershoots, TreeSpec.RouteBounds.
- merge treats a box as empty when both its axis-0 bounds are zero, whatever its other axes hold (`kdtree.c:96`): Boxes.IsUnset, Boxes.Merged.
- The next pivot after a short pass divides by the already-reduced `n` (`kdtree.c:40-42`), so it is not the mean of the remaining boxes and the divisor can be zero: Partitioning.SelectPass.
- `partition_` need not terminate: when every centre of the window is equal on the chosen axis and the target rank lies strictly inside the window, each pass puts all boxes on one side and no number of passes returns (Partitioning.Quickselect, Partitioning.SelectPass, Partitioning.Partition).
- With n == 0, `split[]` is never written (`kdtree.c:185-186`): Tree.KdTree.Build.
- `kdtree_insert` takes two parameters where `kdtree.h:20` declares three: Tree.KdTree.Insert.
- For a window of three or more boxes, the split coordinate averages the centres of two back-half boxes (`kdtree.c:159-160`), not the two boxes on either side of the partition rank. So a back-half box whose centre is at or below that mean is routed left by the descent, though the build put it in the right child: TreeSpec.BackHalfBelowSplit, TreeSpec.BackHalfRoutedLeft. Front-half boxes of such windows route left (TreeSpec.FrontHalfBelowSplit).
- For a window of two boxes, the coordinate averages the back box with the box past the window, which partition never compared with the window. So the front box can route right: TreeSpec.PairFrontAboveSplit, TreeSpec.PairFrontRoutedRight.
- The depth is one level more than the smallest that holds n leaves when n is a power of two: TreeSpec.DepthBounds, TreeSpec.EightBoxesDepth.
