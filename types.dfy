/** The types and capacity of kdtree.h: a bounding box of three minimum and
    three maximum coordinates, the fixed depth cap and the node capacity of
    the two parallel arrays of a tree. */
module KdTypes {

  /** Axis codes (DIRECTION_X, DIRECTION_Y, DIRECTION_Z). */
  const DIRECTION_X := 0
  const DIRECTION_Y := 1
  const DIRECTION_Z := 2

  /** KDTREE_MAXDEPTH. */
  const KDTREE_MAXDEPTH: nat := 10

  /** KDTREE_NODES, written out as (1 << KDTREE_MAXDEPTH) - 1; see NodesIsFullTree. */
  const KDTREE_NODES: nat := 1023

  /** `float minp[3]` and `float maxp[3]`: one coordinate per axis code. */
  type Coords = s: seq<real> | |s| == 3 witness [0.0, 0.0, 0.0]

  /** struct boundingbox. */
  datatype BoundingBox = BoundingBox(minp: Coords, maxp: Coords)

  /** The all-zero box that memset leaves behind. */
  const Zero := BoundingBox([0.0, 0.0, 0.0], [0.0, 0.0, 0.0])

  /** One entry of `split[]`: the plane a node routes by, as the pair
      (axis code, coordinate) that the packed float stands for, or
      Unwritten for storage that no build has written yet. */
  datatype Split = Unwritten | Plane(dir: int, coord: real)

  /** 1 << k. */
  function Pow2(k: nat): (r: nat)
    ensures r >= 1
  {
    if k == 0 then 1 else 2 * Pow2(k - 1)
  }

  /** The slot count (1 << depth) - 1 of a tree of the given depth. */
  function Slots(depth: nat): (r: int)
    ensures r >= 0
  {
    Pow2(depth) - 1
  }

  lemma {:induction false} Pow2Monotone(j: nat, k: nat)
    requires j <= k
    ensures Pow2(j) <= Pow2(k)
    decreases k
  {
    if j < k {
      Pow2Monotone(j, k - 1);
    }
  }

  lemma {:induction false} NodesIsFullTree()
    ensures KDTREE_NODES == Slots(KDTREE_MAXDEPTH)
  {
    assert Pow2(5) == 32;
    assert Pow2(10) == 1024;
  }

  /** Every depth the builder can choose has a slot count that fits the
      arrays, and that slot count is odd (it is a full binary tree). */
  lemma {:induction false} SlotsFit(depth: nat)
    requires 1 <= depth <= KDTREE_MAXDEPTH
    ensures 1 <= Slots(depth) <= KDTREE_NODES
    ensures Slots(depth) % 2 == 1
  {
    Pow2Monotone(depth, KDTREE_MAXDEPTH);
    NodesIsFullTree();
    assert Pow2(depth) == 2 * Pow2(depth - 1);
  }
}
