/**
 The conditional swap of Compiler/permutation.py: swapping by arithmetic on a secret bit. An item
 is a single value, a list of values that move together, or the padding None.
 */
module Swaps {

  datatype Item = Pad | Single(v: int) | Row(vs: seq<int>)

  /** Items that can meet in a swap: both single, or lists of the same length. */
  predicate SameShape(x: Item, y: Item) {
    (x.Single? && y.Single?) || (x.Row? && y.Row? && |x.vs| == |y.vs|)
  }

  /** cond_swap_bit: None moves to the second place; otherwise swap by the difference times b. */
  function CondSwapBit(x: Item, y: Item, b: int): (Item, Item)
    requires x.Pad? || y.Pad? || SameShape(x, y)
  {
    if x.Pad? then (y, Pad)
    else if y.Pad? then (x, Pad)
    else if x.Row? then
      (Row(seq(|x.vs|, i requires 0 <= i < |x.vs| => x.vs[i] - (x.vs[i] - y.vs[i]) * b)),
       Row(seq(|x.vs|, i requires 0 <= i < |x.vs| => y.vs[i] + (x.vs[i] - y.vs[i]) * b)))
    else
      var t := (x.v - y.v) * b;
      (Single(x.v - t), Single(y.v + t))
  }

  /** Interchanged for bit 1. */
  function Swapped<T>(x: T, y: T, b: int): (T, T) {
    if b == 1 then (y, x) else (x, y)
  }

  /** For a bit, the arithmetic is a swap or nothing. */
  lemma SwapBit(x: Item, y: Item, b: int)
    requires SameShape(x, y) && (b == 0 || b == 1)
    ensures CondSwapBit(x, y, b) == Swapped(x, y, b)
  {
    if x.Row? {
      var r := CondSwapBit(x, y, b);
      if b == 1 {
        assert r.0.vs == y.vs && r.1.vs == x.vs;
      } else {
        assert r.0.vs == x.vs && r.1.vs == y.vs;
      }
    }
  }
}
