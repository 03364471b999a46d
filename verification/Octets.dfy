/** Bytes, and the numbers a given count of them can hold. */
module Octets {

  type byte = x: int | 0 <= x < 256
  type Bytes = seq<byte>

  function Pow256(w: nat): nat {
    if w == 0 then 1 else 256 * Pow256(w - 1)
  }

  lemma Widths()
    ensures Pow256(1) == 256 && Pow256(4) == 0x1_0000_0000 && Pow256(8) == 0x1_0000_0000_0000_0000
  {}
}
