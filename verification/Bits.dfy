/** 32-bit mark words: single bits, masks, and the number of set bits. */
module Bits {

  predicate BitAt(w: bv32, i: bv6)
    requires i < 32
  {
    (w >> i) & 1 != 0
  }

  /** Is bit i of w set? */
  predicate Bit(w: bv32, i: nat)
    requires i < 32
  {
    IndexSmall(i);
    BitAt(w, i as bv6)
  }

  function Unit(b: bool): nat {
    if b then 1 else 0
  }

  /** How many of the lowest k bits of w are set. */
  function Ones(w: bv32, k: nat): nat
    requires k <= 32
    decreases k
  {
    if k == 0 then 0 else Ones(w, k - 1) + Unit(Bit(w, k - 1))
  }

  // The masks the collector builds: 1 << k, (1 << k) - 1 and 0xffffffff << k.

  function OneBit(k: nat): bv32
    requires k < 32
  {
    (1 as bv32) << (k as bv6)
  }

  function LowBits(k: nat): bv32
    requires k < 32
  {
    OneBit(k) - 1
  }

  function HighBits(k: nat): bv32
    requires k < 32
  {
    (0xffffffff as bv32) << (k as bv6)
  }

  lemma IndexSmall(i: nat)
    requires i < 32
    ensures i as bv6 < 32
  {
  }

  lemma IndexRoundTrip(i: nat)
    requires i < 32
    ensures (i as bv6) as int == i
  {
  }

  lemma IndexAsInt(a: bv6, b: bv6)
    ensures a < b <==> a as int < b as int
  {
  }

  lemma IndexOrder(i: nat, k: nat)
    requires i < 32 && k < 32
    ensures i as bv6 < k as bv6 <==> i < k
  {
    var a, b := i as bv6, k as bv6;
    IndexRoundTrip(i);
    IndexRoundTrip(k);
    IndexAsInt(a, b);
  }

  lemma IndexInjective(i: nat, k: nat)
    requires i < 32 && k < 32
    ensures i as bv6 == k as bv6 <==> i == k
  {
    IndexRoundTrip(i);
    IndexRoundTrip(k);
  }

  lemma BitAtOps(w: bv32, v: bv32, i: bv6)
    requires i < 32
    ensures BitAt(w | v, i) <==> BitAt(w, i) || BitAt(v, i)
    ensures BitAt(w & v, i) <==> BitAt(w, i) && BitAt(v, i)
    ensures BitAt(!w, i) <==> !BitAt(w, i)
  {
  }

  lemma BitAtMasks(k: bv6, i: bv6)
    requires i < 32 && k < 32
    ensures BitAt((1 as bv32) << k, i) <==> i == k
    ensures BitAt(((1 as bv32) << k) - 1, i) <==> i < k
    ensures BitAt((0xffffffff as bv32) << k, i) <==> k <= i
  {
  }

  lemma OrBit(w: bv32, v: bv32, i: nat)
    requires i < 32
    ensures Bit(w | v, i) <==> Bit(w, i) || Bit(v, i)
  {
    hide BitAt;
    IndexSmall(i);
    BitAtOps(w, v, i as bv6);
  }

  lemma AndBit(w: bv32, v: bv32, i: nat)
    requires i < 32
    ensures Bit(w & v, i) <==> Bit(w, i) && Bit(v, i)
  {
    hide BitAt;
    IndexSmall(i);
    BitAtOps(w, v, i as bv6);
  }

  lemma NotBit(w: bv32, i: nat)
    requires i < 32
    ensures Bit(!w, i) <==> !Bit(w, i)
  {
    hide BitAt;
    IndexSmall(i);
    BitAtOps(w, w, i as bv6);
  }

  lemma MaskBits(k: nat, i: nat)
    requires i < 32 && k < 32
    ensures Bit(OneBit(k), i) <==> i == k
    ensures Bit(LowBits(k), i) <==> i < k
    ensures Bit(HighBits(k), i) <==> k <= i
  {
    hide BitAt;
    IndexSmall(i);
    IndexSmall(k);
    IndexOrder(i, k);
    IndexInjective(i, k);
    BitAtMasks(k as bv6, i as bv6);
  }

  lemma {:induction false} OnesOfAnd(w: bv32, m: bv32, k: nat, pos: nat)
    requires k <= 32 && pos <= 32
    requires forall i: nat :: i < 32 ==> (Bit(m, i) <==> i < pos)
    ensures Ones(w & m, k) == Ones(w, if k < pos then k else pos)
    decreases k
  {
    hide Bit;
    if k > 0 {
      OnesOfAnd(w, m, k - 1, pos);
      AndBit(w, m, k - 1);
    }
  }

  // ----- population count -----

  function PairSums(x: bv32): bv32 { (x & 0x55555555) + ((x >> 1) & 0x55555555) }
  function NibbleSums(x: bv32): bv32 { (x & 0x33333333) + ((x >> 2) & 0x33333333) }
  function ByteSums(x: bv32): bv32 { (x & 0x0f0f0f0f) + ((x >> 4) & 0x0f0f0f0f) }
  function FoldBytes(x: bv32): bv32 { var y := x + (x >> 8); (y + (y >> 16)) & 63 }
  function BytesOf(x: bv32): bv32 { ByteSums(NibbleSums(PairSums(x))) }

  /** The branch-free population count; it equals the bit-by-bit count on every word. */
  function PopCount(x: bv32): (r: nat)
    ensures r == Ones(x, 32)
  {
    PopCountIsOnes(x);
    FoldBytes(BytesOf(x)) as int
  }

  /** The set bits of the lowest byte, as a word. */
  function LowByteCount(x: bv32): bv32 {
    (x & 1) + ((x >> 1) & 1) + ((x >> 2) & 1) + ((x >> 3) & 1)
    + ((x >> 4) & 1) + ((x >> 5) & 1) + ((x >> 6) & 1) + ((x >> 7) & 1)
  }

  lemma LowByteCountSmall(x: bv32)
    ensures LowByteCount(x) <= 8
  {
  }

  lemma FirstByte(x: bv32)
    ensures BytesOf(x) & 0xff == LowByteCount(x)
  {
  }

  lemma SecondByte(x: bv32)
    ensures (BytesOf(x) >> 8) & 0xff == LowByteCount(x >> 8)
  {
  }

  lemma ThirdByte(x: bv32)
    ensures (BytesOf(x) >> 16) & 0xff == LowByteCount(x >> 16)
  {
  }

  lemma FourthByte(x: bv32)
    ensures (BytesOf(x) >> 24) & 0xff == LowByteCount(x >> 24)
  {
  }

  lemma FoldAddsBytes(x: bv32)
    requires x & 0xff <= 8 && (x >> 8) & 0xff <= 8 && (x >> 16) & 0xff <= 8 && (x >> 24) & 0xff <= 8
    ensures FoldBytes(x) == (x & 0xff) + ((x >> 8) & 0xff) + ((x >> 16) & 0xff) + ((x >> 24) & 0xff)
  {
  }

  lemma FoldIsByteCounts(w: bv32)
    ensures FoldBytes(BytesOf(w)) == LowByteCount(w) + LowByteCount(w >> 8) + LowByteCount(w >> 16)
              + LowByteCount(w >> 24)
  {
    hide *;
    var w1, w2, w3 := w >> 8, w >> 16, w >> 24;
    var x := BytesOf(w);
    FirstByte(w); SecondByte(w); ThirdByte(w); FourthByte(w);
    LowByteCountSmall(w); LowByteCountSmall(w1); LowByteCountSmall(w2); LowByteCountSmall(w3);
    FoldAddsBytes(x);
  }

  /** The number a word below 64 stands for, read off its six bits. */
  function Value(x: bv32): nat {
    Unit(x & 1 != 0) + 2 * Unit(x & 2 != 0) + 4 * Unit(x & 4 != 0)
    + 8 * Unit(x & 8 != 0) + 16 * Unit(x & 16 != 0) + 32 * Unit(x & 32 != 0)
  }

  lemma ValueAsInt(x: bv32)
    requires x < 64
    ensures Value(x) == x as int
  {
  }

  lemma ValueAdd(a: bv32, b: bv32)
    requires a <= 24 && b <= 8
    ensures Value(a + b) == Value(a) + Value(b)
  {
  }

  lemma SmallSums(a: bv32, b: bv32, c: bv32)
    requires a <= 8 && b <= 8 && c <= 8
    ensures a + b <= 16 && a + b + c <= 24
  {
  }

  lemma ValueAddFour(a: bv32, b: bv32, c: bv32, d: bv32)
    requires a <= 8 && b <= 8 && c <= 8 && d <= 8
    ensures Value(a + b + c + d) == Value(a) + Value(b) + Value(c) + Value(d)
  {
    hide Value;
    SmallSums(a, b, c);
    ValueAdd(a, b); ValueAdd(a + b, c); ValueAdd(a + b + c, d);
  }

  lemma FoldValue(w: bv32)
    ensures Value(FoldBytes(BytesOf(w)))
         == Value(LowByteCount(w)) + Value(LowByteCount(w >> 8)) + Value(LowByteCount(w >> 16))
             + Value(LowByteCount(w >> 24))
  {
    hide *;
    var w1, w2, w3 := w >> 8, w >> 16, w >> 24;
    var a, b, c, d := LowByteCount(w), LowByteCount(w1), LowByteCount(w2), LowByteCount(w3);
    FoldIsByteCounts(w);
    LowByteCountSmall(w); LowByteCountSmall(w1); LowByteCountSmall(w2); LowByteCountSmall(w3);
    ValueAddFour(a, b, c, d);
  }

  /** The set bits among bits j to j + 7. */
  function ByteOnes(w: bv32, j: nat): nat
    requires j + 8 <= 32
  {
    Unit(Bit(w, j)) + Unit(Bit(w, j + 1)) + Unit(Bit(w, j + 2)) + Unit(Bit(w, j + 3))
    + Unit(Bit(w, j + 4)) + Unit(Bit(w, j + 5)) + Unit(Bit(w, j + 6)) + Unit(Bit(w, j + 7))
  }

  lemma OnesByByte(w: bv32, j: nat)
    requires j + 8 <= 32
    ensures Ones(w, j + 8) == Ones(w, j) + ByteOnes(w, j)
  {
    hide Bit;
    assert Ones(w, j + 2) == Ones(w, j) + Unit(Bit(w, j)) + Unit(Bit(w, j + 1));
    assert Ones(w, j + 4) == Ones(w, j + 2) + Unit(Bit(w, j + 2)) + Unit(Bit(w, j + 3));
    assert Ones(w, j + 6) == Ones(w, j + 4) + Unit(Bit(w, j + 4)) + Unit(Bit(w, j + 5));
  }

  lemma ByteValue0(x: bv32)
    ensures Value(LowByteCount(x)) == ByteOnes(x, 0)
  {
  }

  lemma ByteValue8(w: bv32)
    ensures Value(LowByteCount(w >> 8)) == ByteOnes(w, 8)
  {
  }

  lemma ByteValue16(w: bv32)
    ensures Value(LowByteCount(w >> 16)) == ByteOnes(w, 16)
  {
  }

  lemma ByteValue24(w: bv32)
    ensures Value(LowByteCount(w >> 24)) == ByteOnes(w, 24)
  {
  }

  lemma FoldAsInt(x: bv32)
    ensures FoldBytes(x) as int == Value(FoldBytes(x))
  {
    ValueAsInt(FoldBytes(x));
  }

  lemma PopCountIsOnes(w: bv32)
    ensures FoldBytes(BytesOf(w)) as int == Ones(w, 32)
  {
    hide BytesOf, FoldBytes, LowByteCount, Value, ByteOnes, Bit;
    FoldValue(w);
    FoldAsInt(BytesOf(w));
    ByteValue0(w); ByteValue8(w); ByteValue16(w); ByteValue24(w);
    OnesByByte(w, 0); OnesByByte(w, 8); OnesByByte(w, 16); OnesByByte(w, 24);
  }

  // ----- the tests the collector makes -----

  lemma BitAtTest(w: bv32, i: bv6)
    requires i < 32
    ensures w & ((1 as bv32) << i) != 0 <==> BitAt(w, i)
  {
  }

  /** Is the bit at position i set in the mark word? */
  function Test(w: bv32, i: nat): (r: bool)
    requires i < 32
    ensures r == Bit(w, i)
  {
    IndexSmall(i);
    BitAtTest(w, i as bv6);
    w & OneBit(i) != 0
  }

  lemma CountBelowMask(w: bv32, pos: nat)
    requires pos < 32
    ensures Ones(w & !HighBits(pos), 32) == Ones(w, pos)
  {
    hide Bit;
    var m := !HighBits(pos);
    forall i: nat | i < 32
      ensures Bit(m, i) <==> i < pos
    {
      MaskBits(pos, i);
      NotBit(HighBits(pos), i);
    }
    OnesOfAnd(w, m, 32, pos);
  }

  /** The set bits to the left of position pos: mask them out and count them. */
  function CountBelow(w: bv32, pos: nat): (r: nat)
    requires pos < 32
    ensures r == Ones(w, pos)
  {
    CountBelowMask(w, pos);
    PopCount(w & !HighBits(pos))
  }

  /** Clear the lowest k bits. */
  function ClearLow(w: bv32, k: nat): bv32
    requires k < 32
  {
    w & !LowBits(k)
  }

  lemma AndNotBit(w: bv32, m: bv32, n: bv32, i: nat)
    requires i < 32 && n == !m
    ensures Bit(w & n, i) <==> Bit(w, i) && !Bit(m, i)
  {
    hide *;
    NotBit(m, i);
    AndBit(w, n, i);
  }

  lemma ClearLowBits(w: bv32, k: nat, i: nat)
    requires k < 32 && i < 32
    ensures Bit(ClearLow(w, k), i) <==> Bit(w, i) && k <= i
  {
    hide Bit, OneBit, LowBits, HighBits;
    var m := LowBits(k);
    var n := !m;
    AndNotBit(w, m, n, i);
    MaskBits(k, i);
  }

  /** Set the last bit of the word. */
  function SetLast(w: bv32): bv32 {
    w | OneBit(31)
  }

  lemma SetLastBits(w: bv32, i: nat)
    requires i < 32
    ensures Bit(SetLast(w), i) <==> Bit(w, i) || i == 31
  {
    hide Bit, OneBit, LowBits, HighBits;
    var m := OneBit(31);
    OrBit(w, m, i);
    MaskBits(31, i);
  }

  /** The first set bit at or after pos, or 32: what find-first-set yields for the word shifted right by pos. */
  function FirstSet(w: bv32, pos: nat): (i: nat)
    requires pos <= 32
    ensures pos <= i <= 32
    ensures i < 32 ==> Bit(w, i)
    ensures forall j: nat :: pos <= j < i ==> !Bit(w, j)
    decreases 32 - pos
  {
    if pos == 32 || Test(w, pos) then pos else FirstSet(w, pos + 1)
  }

  lemma OneBitBits(k: nat, i: nat)
    requires k < 32 && i < 32
    ensures Bit(OneBit(k), i) <==> i == k
  {
    hide Bit, OneBit, LowBits, HighBits;
    MaskBits(k, i);
  }

  /** Set one bit. */
  function SetOne(w: bv32, k: nat): bv32
    requires k < 32
  {
    w | OneBit(k)
  }

  function AndNot(w: bv32, m: bv32): bv32 { w & !m }

  lemma AndNotAt(w: bv32, m: bv32, i: bv6)
    requires i < 32
    ensures BitAt(AndNot(w, m), i) <==> BitAt(w, i) && !BitAt(m, i)
  {
  }

  lemma AndNotBits(w: bv32, m: bv32, i: nat)
    requires i < 32
    ensures Bit(AndNot(w, m), i) <==> Bit(w, i) && !Bit(m, i)
  {
    hide BitAt, AndNot;
    IndexSmall(i);
    AndNotAt(w, m, i as bv6);
  }

  /** Clear one bit. */
  function ClearOne(w: bv32, k: nat): bv32
    requires k < 32
  {
    AndNot(w, OneBit(k))
  }

  lemma SetOneBits(w: bv32, k: nat, i: nat)
    requires k < 32 && i < 32
    ensures Bit(SetOne(w, k), i) <==> Bit(w, i) || i == k
  {
    hide Bit, OneBit, LowBits, HighBits;
    var m := OneBit(k);
    OneBitBits(k, i);
    OrBit(w, m, i);
  }

  lemma ClearOneBits(w: bv32, k: nat, i: nat)
    requires k < 32 && i < 32
    ensures Bit(ClearOne(w, k), i) <==> Bit(w, i) && i != k
  {
    hide Bit, OneBit, AndNot;
    AndNotBits(w, OneBit(k), i);
    OneBitBits(k, i);
  }

  lemma LowMaskTwiceAt(k: bv6, i: bv6)
    requires k < 32 && i < 32
    ensures BitAt((((1 as bv32) << k) - 1) * 2 + 1, i) <==> i <= k
  {
  }

  /** Keep the bits 0 to k: ((1 << k) - 1) * 2 + 1 does not overflow even for k = 31. */
  function KeepThrough(w: bv32, k: nat): bv32
    requires k < 32
  {
    (LowBits(k) * 2 + 1) & w
  }

  lemma MaskThrough(k: nat, i: nat)
    requires k < 32 && i < 32
    ensures Bit(LowBits(k) * 2 + 1, i) <==> i <= k
  {
    hide BitAt;
    IndexSmall(i);
    IndexSmall(k);
    IndexOrder(k, i);
    LowMaskTwiceAt(k as bv6, i as bv6);
  }

  lemma KeepThroughBits(w: bv32, k: nat, i: nat)
    requires k < 32 && i < 32
    ensures Bit(KeepThrough(w, k), i) <==> Bit(w, i) && i <= k
  {
    hide Bit, OneBit, LowBits, HighBits;
    var m := LowBits(k) * 2 + 1;
    AndBit(m, w, i);
    MaskThrough(k, i);
  }

  lemma ZeroHasNoBits(i: nat)
    requires i < 32
    ensures !Bit(0, i)
  {
  }
}
