/**
 benchmark/common/crc.hpp: a table-driven reflected cyclic redundancy check, for every word
 width of at least eight bits and every polynomial, and the CRC-32 of IEEE 802.3 as its instance.
 */
module Crc {
  import opened Integers
  import opened Words

  // ----- one division step -----

  /** One step of the division by the reflected polynomial. */
  function BitStep(poly: Word, c: Word): (r: Word)
    requires |poly| == |c| >= 1
    ensures |r| == |c|
  {
    if c[0] then Xor(poly, ShiftRight(c, 1)) else ShiftRight(c, 1)
  }

  function BitSteps(poly: Word, c: Word, n: nat): (r: Word)
    requires |poly| == |c| >= 1
    ensures |r| == |c|
  {
    if n == 0 then c else BitStep(poly, BitSteps(poly, c, n - 1))
  }

  /** The word that has only its lowest bit, set to `b`. */
  function Bit(b: bool, w: nat): (r: Word)
    requires w >= 1
    ensures |r| == w
  {
    Extend([b], w)
  }

  /** The reference: message bits enter one at a time, each followed by one division step. */
  function Serial(poly: Word, c: Word, bits: seq<bool>): (r: Word)
    requires |poly| == |c| >= 1
    ensures |r| == |c|
    decreases |bits|
  {
    if bits == [] then c
    else BitStep(poly, Xor(Serial(poly, c, bits[..|bits| - 1]), Bit(bits[|bits| - 1], |c|)))
  }

  /** The bits of a message, the least significant bit of each byte first. */
  function MessageBits(m: seq<Byte>): seq<bool> {
    if m == [] then [] else MessageBits(m[..|m| - 1]) + FromNat(m[|m| - 1], 8)
  }

  // ----- linearity -----

  lemma ShiftXor(x: Word, y: Word)
    requires |x| == |y| >= 1
    ensures ShiftRight(Xor(x, y), 1) == Xor(ShiftRight(x, 1), ShiftRight(y, 1))
  {
  }

  lemma BitStepLinear(p: Word, x: Word, y: Word)
    requires |p| == |x| == |y| >= 1
    ensures BitStep(p, Xor(x, y)) == Xor(BitStep(p, x), BitStep(p, y))
  {
    ShiftXor(x, y);
    var a, b := BitStep(p, Xor(x, y)), Xor(BitStep(p, x), BitStep(p, y));
    forall i | 0 <= i < |a| ensures a[i] == b[i] {
      assert ShiftRight(Xor(x, y), 1)[i] == (ShiftRight(x, 1)[i] != ShiftRight(y, 1)[i]);
    }
  }

  lemma {:induction false} BitStepsLinear(p: Word, x: Word, y: Word, n: nat)
    requires |p| == |x| == |y| >= 1
    ensures BitSteps(p, Xor(x, y), n) == Xor(BitSteps(p, x, n), BitSteps(p, y, n))
  {
    if n > 0 {
      BitStepsLinear(p, x, y, n - 1);
      BitStepLinear(p, BitSteps(p, x, n - 1), BitSteps(p, y, n - 1));
    }
  }

  /** A register whose low `n` bits are zero is only shifted by `n` steps. */
  lemma {:induction false} OnlyShifted(p: Word, x: Word, n: nat)
    requires |p| == |x| >= 1 && n <= |x| && forall i | 0 <= i < n :: !x[i]
    ensures BitSteps(p, x, n) == ShiftRight(x, n)
  {
    if n > 0 {
      OnlyShifted(p, x, n - 1);
    }
  }

  // ----- many message bits at once -----

  lemma ExtendPrefix(bits: seq<bool>, n: nat, w: nat)
    requires |bits| == n + 1 <= w
    ensures Extend(bits, w) == Xor(Extend(bits[..n], w), Zeros(n) + Bit(bits[n], w - n))
  {
  }

  /** Up to a word of message bits may be added to the register before the division steps instead of one by one. */
  lemma {:induction false} SerialIsSteps(p: Word, c: Word, bits: seq<bool>)
    requires |p| == |c| >= 1 && |bits| <= |c|
    ensures Serial(p, c, bits) == BitSteps(p, Xor(c, Extend(bits, |c|)), |bits|)
    decreases |bits|
  {
    var w := |c|;
    if bits == [] {
      assert Extend(bits, w) == Zeros(w);
      XorSelf(c, c);
    } else {
      var n := |bits| - 1;
      var front, last := Extend(bits[..n], w), Zeros(n) + Bit(bits[n], w - n);
      SerialIsSteps(p, c, bits[..n]);
      OnlyShifted(p, last, n);
      assert ShiftRight(last, n) == Bit(bits[n], w);
      BitStepsLinear(p, Xor(c, front), last, n);
      XorAssociates(c, front, last);
      ExtendPrefix(bits, n, w);
    }
  }

  lemma {:induction false} SerialConcat(p: Word, c: Word, a: seq<bool>, b: seq<bool>)
    requires |p| == |c| >= 1
    ensures Serial(p, c, a + b) == Serial(p, Serial(p, c, a), b)
    decreases |b|
  {
    if b == [] {
      assert a + b == a;
    } else {
      assert (a + b)[..|a + b| - 1] == a + b[..|b| - 1];
      SerialConcat(p, c, a, b[..|b| - 1]);
    }
  }

  // ----- the table -----

  ghost predicate IsTable(p: Word, tab: seq<Word>)
    requires |p| >= 8
  {
    |tab| == 256 && forall i: nat | i < 256 :: tab[i] == BitSteps(p, FromNat(i, |p|), 8)
  }

  lemma Pow2Of8()
    ensures Pow2(8) == 256
  {
    assert Pow2(4) == 16;
  }

  /** The register splits into its low byte and the rest. */
  lemma SplitLow(x: Word)
    requires |x| >= 8
    ensures x == Xor(Extend(x[..8], |x|), Zeros(8) + x[8..])
  {
  }

  /** One table lookup does the work of feeding the eight bits of a byte. */
  lemma TableStep(p: Word, tab: seq<Word>, c: Word, b: Byte)
    requires |p| == |c| >= 8 && IsTable(p, tab)
    ensures ToNat(Xor(c, FromNat(b, |c|))[..8]) < 256
    ensures Xor(tab[ToNat(Xor(c, FromNat(b, |c|))[..8])], ShiftRight(c, 8)) == Serial(p, c, FromNat(b, 8))
  {
    var w := |c|;
    var x := Xor(c, FromNat(b, w));
    var low, high := Extend(x[..8], w), Zeros(8) + x[8..];
    Pow2Of8();
    ToNatBound(x[..8]);
    FromToNat(x[..8]);
    FromNatExtends(ToNat(x[..8]), 8, w);
    assert tab[ToNat(x[..8])] == BitSteps(p, low, 8);
    FromNatExtends(b, 8, w);
    ShiftedHigh(p, c, b, high);
    SplitLow(x);
    BitStepsLinear(p, low, high, 8);
    SerialIsSteps(p, c, FromNat(b, 8));
  }

  lemma ShiftedHigh(p: Word, c: Word, b: Byte, high: Word)
    requires |p| == |c| >= 8 && FromNat(b, |c|) == Extend(FromNat(b, 8), |c|)
    requires high == Zeros(8) + Xor(c, FromNat(b, |c|))[8..]
    ensures |high| == |c| && BitSteps(p, high, 8) == ShiftRight(c, 8)
  {
    OnlyShifted(p, high, 8);
  }

  /** The nested loops that fill the table. */
  method BuildTable(p: Word) returns (tab: array<Word>)
    requires |p| >= 8
    ensures tab.Length == 256 && IsTable(p, tab[..])
  {
    tab := new Word[256](_ => []);
    for i := 0 to 256
      invariant forall k: nat | k < i :: tab[k] == BitSteps(p, FromNat(k, |p|), 8)
    {
      var c := FromNat(i, |p|);
      for j := 0 to 8
        invariant |c| == |p| && c == BitSteps(p, FromNat(i, |p|), j)
      {
        c := if c[0] then Xor(p, ShiftRight(c, 1)) else ShiftRight(c, 1);
      }
      tab[i] := c;
    }
  }

  /** The check value in terms of the reference. */
  function Checksum(p: Word, init: Word, final: Word, m: seq<Byte>): (r: Word)
    requires |p| == |init| == |final| >= 8
    ensures |r| == |p|
  {
    Xor(Serial(p, init, MessageBits(m)), final)
  }

  /** `makeCRC` computes what bit-by-bit division computes. */
  method MakeCRC(p: Word, init: Word, final: Word, buf: array<Byte>) returns (crc: Word)
    requires |p| == |init| == |final| >= 8
    ensures crc == Checksum(p, init, final, buf[..])
  {
    var tab := BuildTable(p);
    crc := init;
    for i := 0 to buf.Length
      invariant |crc| == |p| && crc == Serial(p, init, MessageBits(buf[..i]))
      invariant tab.Length == 256 && IsTable(p, tab[..])
    {
      ghost var before := crc;
      TableStep(p, tab[..], crc, buf[i]);
      crc := Xor(tab[ToNat(Xor(crc, FromNat(buf[i], |crc|))[..8])], ShiftRight(crc, 8));
      assert buf[..i + 1][..i] == buf[..i];
      SerialConcat(p, init, MessageBits(buf[..i]), FromNat(buf[i], 8));
    }
    assert buf[..buf.Length] == buf[..];
    crc := Xor(crc, final);
  }

  // ----- error detection -----

  /** With the top bit of the polynomial set, a step can be undone. */
  lemma BitStepInjective(p: Word, x: Word, y: Word)
    requires |p| == |x| == |y| >= 1 && p[|p| - 1]
    requires BitStep(p, x) == BitStep(p, y)
    ensures x == y
  {
    var top := |p| - 1;
    assert BitStep(p, x)[top] == x[0] && BitStep(p, y)[top] == y[0];
    var s, t := ShiftRight(x, 1), ShiftRight(y, 1);
    if x[0] {
      XorInjective(p, s, t);
    }
    forall i | 1 <= i < |x| ensures x[i] == y[i] {
      assert s[i - 1] == t[i - 1];
    }
  }

  lemma {:induction false} BitStepsInjective(p: Word, x: Word, y: Word, n: nat)
    requires |p| == |x| == |y| >= 1 && p[|p| - 1]
    requires BitSteps(p, x, n) == BitSteps(p, y, n)
    ensures x == y
  {
    if n > 0 {
      BitStepInjective(p, BitSteps(p, x, n - 1), BitSteps(p, y, n - 1));
      BitStepsInjective(p, x, y, n - 1);
    }
  }

  /** Different registers stay different when the same bits follow. */
  lemma {:induction false} SerialInjective(p: Word, x: Word, y: Word, bits: seq<bool>)
    requires |p| == |x| == |y| >= 1 && p[|p| - 1]
    requires Serial(p, x, bits) == Serial(p, y, bits)
    ensures x == y
    decreases |bits|
  {
    if bits != [] {
      var n := |bits| - 1;
      var x', y', d := Serial(p, x, bits[..n]), Serial(p, y, bits[..n]), Bit(bits[n], |p|);
      BitStepInjective(p, Xor(x', d), Xor(y', d));
      XorSelf(x', d);
      XorSelf(y', d);
      XorInjective(d, x', y');
      SerialInjective(p, x, y, bits[..n]);
    }
  }

  /** Up to a word of bits can be recovered from the register before and after them. */
  lemma {:induction false} WindowInjective(p: Word, c: Word, a: seq<bool>, b: seq<bool>)
    requires |p| == |c| >= 1 && p[|p| - 1] && |a| == |b| <= |c|
    requires Serial(p, c, a) == Serial(p, c, b)
    ensures a == b
  {
    var w := |c|;
    SerialIsSteps(p, c, a);
    SerialIsSteps(p, c, b);
    BitStepsInjective(p, Xor(c, Extend(a, w)), Xor(c, Extend(b, w)), |a|);
    XorInjective(c, Extend(a, w), Extend(b, w));
    assert a == Extend(a, w)[..|a|] && b == Extend(b, w)[..|b|];
  }

  lemma {:induction false} WindowThenTail(p: Word, c: Word, a: seq<bool>, b: seq<bool>, back: seq<bool>)
    requires |p| == |c| >= 1 && p[|p| - 1] && |a| == |b| <= |c|
    requires Serial(p, Serial(p, c, a), back) == Serial(p, Serial(p, c, b), back)
    ensures a == b
  {
    SerialInjective(p, Serial(p, c, a), Serial(p, c, b), back);
    WindowInjective(p, c, a, b);
  }

  lemma {:induction false} SerialThreeParts(p: Word, c: Word, front: seq<bool>, a: seq<bool>, back: seq<bool>)
    requires |p| == |c| >= 1
    ensures Serial(p, c, front + a + back) == Serial(p, Serial(p, Serial(p, c, front), a), back)
  {
    SerialConcat(p, c, front + a, back);
    SerialConcat(p, c, front, a);
  }

  /**
   Messages that differ only inside a window no longer than the register, at any bit position,
   have different check values.
   */
  lemma {:induction false} BurstDetected(p: Word, init: Word, front: seq<bool>, a: seq<bool>, b: seq<bool>,
                                         back: seq<bool>)
    requires |p| == |init| >= 1 && p[|p| - 1]
    requires |a| == |b| <= |p| && Serial(p, init, front + a + back) == Serial(p, init, front + b + back)
    ensures a == b
  {
    SerialThreeParts(p, init, front, a, back);
    SerialThreeParts(p, init, front, b, back);
    WindowThenTail(p, Serial(p, init, front), a, b, back);
  }

  // ----- bytes -----

  lemma {:induction false} MessageBitsConcat(a: seq<Byte>, b: seq<Byte>)
    ensures MessageBits(a + b) == MessageBits(a) + MessageBits(b)
    decreases |b|
  {
    if b == [] {
      assert a + b == a;
    } else {
      assert (a + b)[..|a + b| - 1] == a + b[..|b| - 1];
      MessageBitsConcat(a, b[..|b| - 1]);
    }
  }

  lemma {:induction false} MessageBitsLength(a: seq<Byte>)
    ensures |MessageBits(a)| == 8 * |a|
  {
    if a != [] {
      MessageBitsLength(a[..|a| - 1]);
    }
  }

  lemma SplitEqual<T>(a: seq<T>, b: seq<T>, c: seq<T>, d: seq<T>)
    requires a + b == c + d && |a| == |c|
    ensures a == c && b == d
  {
    assert a == (a + b)[..|a|] && c == (c + d)[..|c|];
    assert b == (a + b)[|a|..] && d == (c + d)[|c|..];
  }

  lemma {:induction false} MessageBitsInjective(a: seq<Byte>, b: seq<Byte>)
    requires |a| == |b| && MessageBits(a) == MessageBits(b)
    ensures a == b
    decreases |a|
  {
    if a != [] {
      var n := |a| - 1;
      MessageBitsLength(a[..n]);
      MessageBitsLength(b[..n]);
      SplitEqual(MessageBits(a[..n]), FromNat(a[n], 8), MessageBits(b[..n]), FromNat(b[n], 8));
      MessageBitsInjective(a[..n], b[..n]);
      Pow2Of8();
      ToFromNat(a[n], 8);
      ToFromNat(b[n], 8);
      assert a == a[..n] + [a[n]] && b == b[..n] + [b[n]];
    }
  }

  lemma MessageThreeParts(front: seq<Byte>, a: seq<Byte>, back: seq<Byte>)
    ensures MessageBits(front + a + back) == MessageBits(front) + MessageBits(a) + MessageBits(back)
  {
    MessageBitsConcat(front + a, back);
    MessageBitsConcat(front, a);
  }

  /** Two equal-length messages that differ only in bytes that fit in one register word have different check values. */
  lemma {:induction false} ByteBurstDetected(p: Word, init: Word, final: Word, front: seq<Byte>, a: seq<Byte>,
                                             b: seq<Byte>, back: seq<Byte>)
    requires |p| == |init| == |final| >= 8 && p[|p| - 1]
    requires |a| == |b| && 8 * |a| <= |p|
    requires Checksum(p, init, final, front + a + back) == Checksum(p, init, final, front + b + back)
    ensures a == b
  {
    var x, y := Serial(p, init, MessageBits(front + a + back)), Serial(p, init, MessageBits(front + b + back));
    XorSelf(x, final);
    XorSelf(y, final);
    XorInjective(final, x, y);
    MessageThreeParts(front, a, back);
    MessageThreeParts(front, b, back);
    MessageBitsLength(a);
    MessageBitsLength(b);
    BurstDetected(p, init, MessageBits(front), MessageBits(a), MessageBits(b), MessageBits(back));
    MessageBitsInjective(a, b);
  }

  // ----- CRC-32 -----

  const CRC32_IEEE: nat := 0xEDB8_8320
  const ALL_ONES: nat := 0xFFFF_FFFF

  function Crc32Poly(): (r: Word)
    ensures |r| == 32
  {
    FromNat(CRC32_IEEE, 32)
  }

  ghost function Crc32(m: seq<Byte>): Word {
    Checksum(Crc32Poly(), FromNat(ALL_ONES, 32), FromNat(ALL_ONES, 32), m)
  }

  /** The top bit of a number that needs all `w` bits is set. */
  lemma {:induction false} TopBitSet(n: nat, w: nat)
    requires w >= 1 && Pow2(w - 1) <= n < Pow2(w)
    ensures FromNat(n, w)[w - 1]
  {
    if w > 1 {
      TopBitSet(n / 2, w - 1);
    }
  }

  lemma Pow2Of32(n: nat)
    requires n == 32
    ensures Pow2(n - 1) == 0x8000_0000 && Pow2(n) == 0x1_0000_0000
  {
    assert Pow2(8) == 0x100;
    assert Pow2(16) == 0x1_0000;
    assert Pow2(24) == 0x100_0000;
    assert Pow2(31) == 0x8000_0000;
  }

  lemma Crc32PolyTop(w: nat)
    requires w == 32
    ensures Crc32Poly()[w - 1]
  {
    Pow2Of32(w);
    TopBitSet(CRC32_IEEE, w);
  }

  /** CRC-32 tells apart messages that differ only within four consecutive bytes. */
  lemma {:induction false} Crc32DetectsFourBytes(front: seq<Byte>, a: seq<Byte>, b: seq<Byte>, back: seq<Byte>)
    requires |a| == |b| <= 4 && Crc32(front + a + back) == Crc32(front + b + back)
    ensures a == b
  {
    Crc32PolyTop(32);
    ByteBurstDetected(Crc32Poly(), FromNat(ALL_ONES, 32), FromNat(ALL_ONES, 32), front, a, b, back);
  }
}
