// Bytes as numbers and as bits.
module Bytes {
  type byte = x: int | 0 <= x < 256

  type bytes = seq<byte>

  function Pow256(n: nat): (r: nat)
    ensures r > 0
  {
    if n == 0 then 1 else 256 * Pow256(n - 1)
  }

  lemma NextBits(x: bv8)
    requires x != 255
    ensures (x + 1) as int == x as int + 1
  {
  }

  /** The bits of a byte, counted up from zero. */
  function Bits(a: byte): (x: bv8)
    ensures x as int == a
  {
    if a == 0 then 0
    else
      NextBits(Bits(a - 1));
      Bits(a - 1) + 1
  }

  lemma BitsByte(x: bv8)
    ensures (x as int) as bv8 == x
  {
  }

  lemma ByteBits(a: byte)
    ensures (a as bv8) as int == a
  {
    BitsByte(Bits(a));
  }
}
