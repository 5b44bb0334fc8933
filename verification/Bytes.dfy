/** Bytes as numbers. */
module Bytes {
  type Byte = b: int | 0 <= b < 0x100

  function LittleEndian(low: Byte, high: Byte): nat {
    (low as int) + 0x100 * (high as int)
  }

  function BigEndian24(high: Byte, middle: Byte, low: Byte): (n: nat)
    ensures n < 0x100_0000
  {
    (high as int) * 0x1_0000 + (middle as int) * 0x100 + (low as int)
  }

  lemma Split24(n: nat)
    requires n < 0x100_0000
    ensures BigEndian24(n / 0x1_0000, n / 0x100 % 0x100, n % 0x100) == n
  {
    assert n / 0x1_0000 == n / 0x100 / 0x100;
  }

  predicate StartsWith(bytes: seq<Byte>, magic: seq<Byte>) {
    magic <= bytes
  }
}
