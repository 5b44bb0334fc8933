/** The CRC-8 of FLAC frame headers (section 9.1.8 of RFC 9639): a bitwise loop, and the
    polynomial remainder it computes. */
module Crc8 {
  import opened Bytes

  /** Bits, the highest first; also the coefficients of a polynomial over GF(2), highest power first. */
  type Bits = seq<bool>

  /** A `u8` by its bits. */
  type Octet = o: Bits | |o| == 8
    witness [false, false, false, false, false, false, false, false]

  const ZERO: Octet := [false, false, false, false, false, false, false, false]
  const SEVEN: Octet := [false, false, false, false, false, true, true, true]

  function Xor(x: Octet, y: Octet): Octet {
    seq(8, i requires 0 <= i < 8 => x[i] != y[i])
  }

  function Doubled(c: Octet): Octet { c[1..] + [false] }

  function ValueOf(bits: Bits): nat {
    if bits == [] then 0 else 2 * ValueOf(bits[..|bits| - 1]) + if bits[|bits| - 1] then 1 else 0
  }

  function LowBits(n: nat, k: nat): (bits: Bits)
    ensures |bits| == k
  {
    if k == 0 then [] else LowBits(n / 2, k - 1) + [n % 2 == 1]
  }

  function OctetOf(b: Byte): Octet { LowBits(b, 8) }

  function Power2(k: nat): nat { if k == 0 then 1 else 2 * Power2(k - 1) }

  lemma {:induction false} ValueOfLowBits(n: nat, k: nat)
    requires n < Power2(k)
    ensures ValueOf(LowBits(n, k)) == n
  {
    if k > 0 {
      ValueOfLowBits(n / 2, k - 1);
      assert LowBits(n, k)[..k - 1] == LowBits(n / 2, k - 1);
    }
  }

  /** Distinct bytes have distinct octets. */
  lemma ValueOfOctet(b: Byte)
    ensures ValueOf(OctetOf(b)) == b
  {
    assert Power2(4) == 16;
    assert Power2(8) == 16 * Power2(4);
    ValueOfLowBits(b, 8);
  }

  lemma {:induction false} ValueIsBounded(bits: Bits)
    ensures ValueOf(bits) < Power2(|bits|)
    decreases |bits|
  {
    if bits != [] {
      ValueIsBounded(bits[..|bits| - 1]);
    }
  }

  lemma ValueIsByte(o: Octet)
    ensures ValueOf(o) < 0x100
  {
    assert Power2(4) == 16;
    assert Power2(8) == 16 * Power2(4);
    ValueIsBounded(o);
  }

  lemma {:induction false} LowBitsOfValue(bits: Bits)
    ensures LowBits(ValueOf(bits), |bits|) == bits
    decreases |bits|
  {
    if bits != [] {
      var n := |bits| - 1;
      LowBitsOfValue(bits[..n]);
      assert ValueOf(bits) / 2 == ValueOf(bits[..n]);
      assert bits == bits[..n] + [bits[n]];
    }
  }

  /** Every octet is that of some byte. */
  lemma OctetOfValue(o: Octet)
    requires ValueOf(o) < 0x100
    ensures OctetOf(ValueOf(o)) == o
  {
    LowBitsOfValue(o);
  }

  // The loop.

  function Shift(c: Octet): Octet {
    if c[0] then Xor(Doubled(c), SEVEN) else Doubled(c)
  }

  function Shifts(c: Octet, k: nat): Octet {
    if k == 0 then c else Shift(Shifts(c, k - 1))
  }

  function Crc(data: seq<Octet>): Octet {
    if data == [] then ZERO else Shifts(Xor(Crc(data[..|data| - 1]), data[|data| - 1]), 8)
  }

  method FlacCrc8(data: seq<Octet>) returns (crc: Octet)
    ensures crc == Crc(data)
  {
    crc := ZERO;
    for i := 0 to |data|
      invariant crc == Crc(data[..i])
    {
      assert data[..i + 1][..i] == data[..i];
      crc := Xor(crc, data[i]);
      ghost var start := crc;
      for k := 0 to 8
        invariant crc == Shifts(start, k)
      {
        if crc[0] {
          crc := Xor(Doubled(crc), SEVEN);
        } else {
          crc := Doubled(crc);
        }
      }
    }
    assert data[..|data|] == data;
  }

  // Linearity, and the errors that are caught.

  function Sum(a: seq<Octet>, b: seq<Octet>): (r: seq<Octet>)
    requires |a| == |b|
    ensures |r| == |a|
  {
    seq(|a|, i requires 0 <= i < |a| => Xor(a[i], b[i]))
  }

  lemma SevenAt(i: nat)
    requires i < 8
    ensures SEVEN[i] == (i >= 5)
    ensures !ZERO[i]
  {
  }

  lemma ShiftAt(c: Octet, i: nat)
    requires i < 8
    ensures Shift(c)[i] == ((i < 7 && c[i + 1]) != (c[0] && SEVEN[i]))
  {
  }

  lemma ShiftIsLinear(x: Octet, y: Octet)
    ensures Shift(Xor(x, y)) == Xor(Shift(x), Shift(y))
  {
    hide Shift;
    forall i | 0 <= i < 8
      ensures Shift(Xor(x, y))[i] == Xor(Shift(x), Shift(y))[i]
    {
      ShiftAt(Xor(x, y), i);
      ShiftAt(x, i);
      ShiftAt(y, i);
    }
  }

  lemma ShiftLosesNothing(x: Octet)
    ensures Shift(x) == ZERO <==> x == ZERO
  {
    hide Shift;
    forall i | 0 <= i < 8
      ensures Shift(x)[i] == ((i < 7 && x[i + 1]) != (x[0] && i >= 5)) && !ZERO[i]
    {
      ShiftAt(x, i);
      SevenAt(i);
    }
    if Shift(x) == ZERO {
      assert !Shift(x)[7];
      forall i | 0 < i < 8
        ensures !x[i]
      {
        assert !Shift(x)[i - 1];
      }
      assert x == ZERO;
    }
  }

  lemma Regroup(a: Octet, b: Octet, x: Octet, y: Octet)
    ensures Xor(Xor(a, b), Xor(x, y)) == Xor(Xor(a, x), Xor(b, y))
  {
  }

  lemma SumIsZero(x: Octet, y: Octet)
    ensures Xor(x, y) == ZERO <==> x == y
  {
    forall i | 0 <= i < 8
      ensures !ZERO[i]
    {
      SevenAt(i);
    }
    if Xor(x, y) == ZERO {
      forall i | 0 <= i < 8
        ensures x[i] == y[i]
      {
        assert Xor(x, y)[i] == ZERO[i];
      }
    }
  }

  lemma {:induction false} ShiftsAreLinear(x: Octet, y: Octet, k: nat)
    ensures Shifts(Xor(x, y), k) == Xor(Shifts(x, k), Shifts(y, k))
  {
    hide Shift, Xor;
    if k > 0 {
      ShiftsAreLinear(x, y, k - 1);
      ShiftIsLinear(Shifts(x, k - 1), Shifts(y, k - 1));
    }
  }

  lemma {:induction false} ShiftsLoseNothing(x: Octet, k: nat)
    ensures Shifts(x, k) == ZERO <==> x == ZERO
  {
    hide Shift;
    if k > 0 {
      ShiftsLoseNothing(x, k - 1);
      ShiftLosesNothing(Shifts(x, k - 1));
    }
  }

  lemma ShiftsAreInjective(x: Octet, y: Octet, k: nat)
    ensures Shifts(x, k) == Shifts(y, k) <==> x == y
  {
    hide Shift, Xor, Shifts;
    ShiftsAreLinear(x, y, k);
    ShiftsLoseNothing(Xor(x, y), k);
    SumIsZero(x, y);
    SumIsZero(Shifts(x, k), Shifts(y, k));
  }

  /** The CRC of the sum of two inputs of one length is the sum of their CRCs. */
  lemma {:induction false} CrcIsLinear(a: seq<Octet>, b: seq<Octet>)
    requires |a| == |b|
    ensures Crc(Sum(a, b)) == Xor(Crc(a), Crc(b))
    decreases |a|
  {
    hide Shift, Shifts, Xor;
    if a == [] {
      SumIsZero(ZERO, ZERO);
    } else {
      var n := |a| - 1;
      assert Sum(a, b)[..n] == Sum(a[..n], b[..n]);
      CrcIsLinear(a[..n], b[..n]);
      Regroup(Crc(a[..n]), Crc(b[..n]), a[n], b[n]);
      ShiftsAreLinear(Xor(Crc(a[..n]), a[n]), Xor(Crc(b[..n]), b[n]), 8);
    }
  }

  /** An input followed by its CRC has CRC zero, and followed by any other byte it has not. */
  lemma OwnCrcGivesZero(data: seq<Octet>, last: Octet)
    ensures Crc(data + [last]) == ZERO <==> last == Crc(data)
  {
    hide Shift, Shifts, Xor;
    assert (data + [last])[..|data|] == data;
    ShiftsLoseNothing(Xor(Crc(data), last), 8);
    SumIsZero(Crc(data), last);
  }

  lemma Cancel(x: Octet, y: Octet, c: Octet)
    ensures Xor(c, x) == Xor(c, y) <==> x == y
    ensures Xor(x, c) == Xor(y, c) <==> x == y
  {
    if x != y {
      var i :| 0 <= i < 8 && x[i] != y[i];
      assert Xor(c, x)[i] != Xor(c, y)[i] && Xor(x, c)[i] != Xor(y, c)[i];
    }
  }

  /** Inputs of one length that differ in exactly one byte never share a CRC. */
  lemma {:induction false} OneByteErrorIsCaught(a: seq<Octet>, b: seq<Octet>, i: nat)
    requires |a| == |b| && i < |a| && a[i] != b[i]
    requires forall k :: 0 <= k < |a| && k != i ==> a[k] == b[k]
    ensures Crc(a) != Crc(b)
    decreases |a|
  {
    hide Shift, Shifts, Xor;
    var n := |a| - 1;
    if i == n {
      assert a[..n] == b[..n];
      Cancel(a[n], b[n], Crc(a[..n]));
    } else {
      OneByteErrorIsCaught(a[..n], b[..n], i);
      Cancel(Crc(a[..n]), Crc(b[..n]), a[n]);
    }
    ShiftsAreInjective(Xor(Crc(a[..n]), a[n]), Xor(Crc(b[..n]), b[n]), 8);
  }

  // Division over GF(2).

  /** x^8 + x^2 + x + 1 */
  const GENERATOR: Bits := [true, false, false, false, false, false, true, true, true]

  /** Add `low` to the lowest coefficients of `p`. */
  function AddLow(p: Bits, low: Bits): (r: Bits)
    requires |low| <= |p|
    ensures |r| == |p|
    ensures forall i :: 0 <= i < |p| ==>
      r[i] == if i < |p| - |low| then p[i] else p[i] != low[i - (|p| - |low|)]
  {
    seq(|p|, i requires 0 <= i < |p| => if i < |p| - |low| then p[i] else p[i] != low[i - (|p| - |low|)])
  }

  /** The product of `q` and the generator, by Horner's rule. */
  function TimesGenerator(q: Bits): (r: Bits)
    ensures |r| == |q| + 8
  {
    if q == [] then ZERO
    else
      var shifted := TimesGenerator(q[..|q| - 1]) + [false];
      if q[|q| - 1] then AddLow(shifted, GENERATOR) else shifted
  }

  /** `m` times x^8 is `q` times the generator plus `r`. */
  ghost predicate Divides(m: Bits, q: Bits, r: Octet) {
    |q| == |m| && m + ZERO == AddLow(TimesGenerator(q), r)
  }

  /** Take in one bit of the input. */
  function BitStep(r: Octet, bit: bool): Octet {
    Shift(r[0 := r[0] != bit])
  }

  function BitSteps(bits: Bits): Octet {
    if bits == [] then ZERO else BitStep(BitSteps(bits[..|bits| - 1]), bits[|bits| - 1])
  }

  lemma OneBit(m: Bits, bit: bool)
    ensures BitSteps(m + [bit]) == BitStep(BitSteps(m), bit)
  {
    hide BitStep;
    assert (m + [bit])[..|m|] == m;
  }

  /** A step shifts by one and adds the generator if the bit shifted out is set. */
  lemma StepAt(r: Octet, bit: bool, i: nat)
    requires i < 8
    ensures BitStep(r, bit)[i] == ((i < 7 && r[i + 1]) != ((r[0] != bit) && GENERATOR[i + 1]))
  {
    hide Shift;
    ShiftAt(r[0 := r[0] != bit], i);
    assert GENERATOR == [true] + SEVEN;
  }

  lemma TimesGeneratorStep(q: Bits, carry: bool)
    ensures TimesGenerator(q + [carry])
      == if carry then AddLow(TimesGenerator(q) + [false], GENERATOR) else TimesGenerator(q) + [false]
  {
    assert (q + [carry])[..|q|] == q;
  }

  /** One more bit of input is one more step of the division. */
  lemma DivideStep(m: Bits, q: Bits, r: Octet, bit: bool)
    requires Divides(m, q, r)
    ensures Divides(m + [bit], q + [r[0] != bit], BitStep(r, bit))
  {
    hide BitStep, TimesGenerator;
    var n := |m|;
    var carry := r[0] != bit;
    TimesGeneratorStep(q, carry);
    var product := TimesGenerator(q + [carry]);
    var sum := AddLow(product, BitStep(r, bit));
    var wanted := m + [bit] + ZERO;
    forall j | 0 <= j < n + 9
      ensures sum[j] == wanted[j]
    {
      var before := m + ZERO;
      if j < n + 8 {
        assert before[j] == AddLow(TimesGenerator(q), r)[j];
      }
      if n < j {
        StepAt(r, bit, j - n - 1);
      }
    }
    assert sum == wanted;
  }

  lemma {:induction false} SerialDivision(m: Bits) returns (q: Bits)
    ensures Divides(m, q, BitSteps(m))
    decreases |m|
  {
    if m == [] {
      q := [];
      assert m + ZERO == AddLow(ZERO, ZERO);
    } else {
      var n := |m| - 1;
      var shorter := SerialDivision(m[..n]);
      DivideStep(m[..n], shorter, BitSteps(m[..n]), m[n]);
      assert m[..n] + [m[n]] == m;
      q := shorter + [BitSteps(m[..n])[0] != m[n]];
    }
  }

  /** The high coefficients of a product determine the factor. */
  lemma {:induction false} FactorIsUnique(p: Bits, q: Bits)
    requires |p| == |q| && TimesGenerator(p)[..|p|] == TimesGenerator(q)[..|q|]
    ensures p == q
    decreases |p|
  {
    if p != [] {
      var n := |p| - 1;
      var a, b := TimesGenerator(p), TimesGenerator(q);
      forall j | 0 <= j < n
        ensures TimesGenerator(p[..n])[j] == TimesGenerator(q[..n])[j]
      {
        assert a[..n + 1][j] == b[..n + 1][j];
      }
      assert TimesGenerator(p[..n])[..n] == TimesGenerator(q[..n])[..n];
      FactorIsUnique(p[..n], q[..n]);
      assert a[..n + 1][n] == b[..n + 1][n];
      assert p == p[..n] + [p[n]] && q == q[..n] + [q[n]];
    }
  }

  lemma RemainderIsUnique(m: Bits, p: Bits, r: Octet, q: Bits, s: Octet)
    requires Divides(m, p, r) && Divides(m, q, s)
    ensures p == q && r == s
  {
    var n := |m|;
    var a, b := TimesGenerator(p), TimesGenerator(q);
    var whole := m + ZERO;
    forall j | 0 <= j < n
      ensures a[j] == b[j]
    {
      assert AddLow(a, r)[j] == whole[j] == AddLow(b, s)[j];
    }
    assert a[..n] == b[..n];
    FactorIsUnique(p, q);
    forall i | 0 <= i < 8
      ensures r[i] == s[i]
    {
      assert AddLow(a, r)[n + i] == whole[n + i] == AddLow(b, s)[n + i];
    }
  }

  // From bytes to bits.

  function MessageBits(data: seq<Octet>): Bits {
    if data == [] then [] else MessageBits(data[..|data| - 1]) + data[|data| - 1]
  }

  /** What is left of a byte after its top k bits, moved up. */
  function Rest(byte: Octet, k: nat): Octet
    requires k <= 8
  {
    byte[k..] + ZERO[..k]
  }

  /** Shifting the sum of `r` and what is left of a byte takes in the byte's next bit. */
  lemma ShiftTakesOneBit(r: Octet, rest: Octet)
    ensures Shift(Xor(r, rest)) == Xor(BitStep(r, rest[0]), Doubled(rest))
  {
    hide Shift, BitStep;
    assert GENERATOR == [true] + SEVEN;
    forall i | 0 <= i < 8
      ensures Shift(Xor(r, rest))[i] == Xor(BitStep(r, rest[0]), Doubled(rest))[i]
    {
      ShiftAt(Xor(r, rest), i);
      StepAt(r, rest[0], i);
    }
  }

  lemma RestStep(byte: Octet, k: nat)
    requires k < 8
    ensures Rest(byte, k)[0] == byte[k]
    ensures Doubled(Rest(byte, k)) == Rest(byte, k + 1)
  {
    SevenAt(k);
  }

  /** After k shifts of the sum of `BitSteps(m)` and a byte, the byte's top k bits have been taken in. */
  lemma {:induction false} ShiftsTakeBits(m: Bits, byte: Octet, k: nat)
    requires k <= 8
    ensures Shifts(Xor(BitSteps(m), byte), k) == Xor(BitSteps(m + byte[..k]), Rest(byte, k))
  {
    hide Shift, Xor, BitStep, BitSteps;
    if k == 0 {
      assert m + byte[..0] == m;
      assert byte[0..] + ZERO[..0] == byte;
    } else {
      hide Rest, Doubled;
      var before := m + byte[..k - 1];
      ShiftsTakeBits(m, byte, k - 1);
      ShiftTakesOneBit(BitSteps(before), Rest(byte, k - 1));
      RestStep(byte, k - 1);
      OneBit(before, byte[k - 1]);
      assert before + [byte[k - 1]] == m + byte[..k];
    }
  }

  lemma ByteIsEightSteps(m: Bits, byte: Octet)
    ensures BitSteps(m + byte) == Shifts(Xor(BitSteps(m), byte), 8)
  {
    hide BitStep, Shift, BitSteps, Shifts;
    ShiftsTakeBits(m, byte, 8);
    assert byte[..8] == byte;
    var taken := BitSteps(m + byte);
    forall i | 0 <= i < 8
      ensures Xor(taken, Rest(byte, 8))[i] == taken[i]
    {
      SevenAt(i);
    }
  }

  lemma {:induction false} CrcIsSerial(data: seq<Octet>)
    ensures Crc(data) == BitSteps(MessageBits(data))
    decreases |data|
  {
    hide BitStep, Shift, Xor, Shifts;
    if data != [] {
      var n := |data| - 1;
      CrcIsSerial(data[..n]);
      ByteIsEightSteps(MessageBits(data[..n]), data[n]);
    }
  }

  /** The CRC of an input is its remainder modulo x^8 + x^2 + x + 1, after eight zero bits are
      appended: it is the only octet with which the division comes out. */
  lemma CrcIsTheRemainder(data: seq<Octet>, r: Octet)
    ensures (exists q :: Divides(MessageBits(data), q, r)) <==> r == Crc(data)
  {
    hide Crc, BitSteps, TimesGenerator, Divides;
    var m := MessageBits(data);
    CrcIsSerial(data);
    var q := SerialDivision(m);
    forall p | Divides(m, p, r)
      ensures r == Crc(data)
    {
      RemainderIsUnique(m, p, r, q, Crc(data));
    }
  }

  /** The CRC of the byte 1 is 7: that is x^8 modulo x^8 + x^2 + x + 1. */
  lemma CrcOfOne()
    ensures Crc([[false, false, false, false, false, false, false, true]])
      == [false, false, false, false, false, true, true, true]
  {
    var one: Octet := [false, false, false, false, false, false, false, true];
    assert [one][..0] == [];
    assert Xor(ZERO, one) == one;
    assert Shifts(one, 1) == [false, false, false, false, false, false, true, false];
    assert Shifts(one, 2) == [false, false, false, false, false, true, false, false];
    assert Shifts(one, 3) == [false, false, false, false, true, false, false, false];
    assert Shifts(one, 4) == [false, false, false, true, false, false, false, false];
    assert Shifts(one, 5) == [false, false, true, false, false, false, false, false];
    assert Shifts(one, 6) == [false, true, false, false, false, false, false, false];
    assert Shifts(one, 7) == [true, false, false, false, false, false, false, false];
    assert Shifts(one, 8) == [false, false, false, false, false, true, true, true];
  }
}
