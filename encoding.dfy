/** combine_direction / get_direction of kdtree.c, on the 32-bit pattern of
    the split float: the axis code lives in the two lowest bits. The tree
    itself keeps the decoded pair (see KdTypes.Split); this module states
    what the packing does to the bits. */
module SplitEncoding {

  /** get_direction(): the two low bits of the pattern, as an int. */
  function GetDirection(bits: bv32): (d: int)
    ensures 0 <= d <= 3
  {
    (bits & 3) as int
  }

  /** combine_direction(): clear the two low bits, then or in `d`. */
  function CombineDirection(bits: bv32, d: int): (r: bv32)
    requires 0 <= d <= 3
    ensures GetDirection(r) == d
    ensures r & !3 == bits & !3
  {
    (bits & !3) | (d as bv32)
  }

  /** Packing a direction over one that is already packed keeps only the
      last one, and re-packing the direction a pattern already carries
      changes nothing. */
  lemma {:induction false} CombineTwice(bits: bv32, d: int, e: int)
    requires 0 <= d <= 3 && 0 <= e <= 3
    ensures CombineDirection(CombineDirection(bits, d), e) == CombineDirection(bits, e)
    ensures CombineDirection(bits, GetDirection(bits)) == bits
  {
  }
}
