/** Setting mark bits: one word per object when it turns grey, all its words when it turns black. */
module MarkBits {
  import opened Bits
  import opened GcHeap

  // ----- masks -----

  lemma ShlOneAt(w: bv32, i: bv6)
    requires i < 32
    ensures BitAt(w << 1, i) <==> 0 < i && BitAt(w, if 0 < i then i - 1 else 0)
  {
  }

  function ShlAt(w: bv32, s: bv6): bv32
    requires s < 32
  {
    w << s
  }

  function ShrAt(w: bv32, s: bv6): bv32
    requires s < 32
  {
    w >> s
  }

  lemma ShlSuccAt(w: bv32, s: bv6)
    requires s < 31
    ensures ShlAt(w, s + 1) == ShlAt(w, s) << 1
  {
  }

  lemma ShrOneAt(w: bv32, i: bv6)
    requires i < 32
    ensures BitAt(w >> 1, i) <==> i < 31 && BitAt(w, if i < 31 then i + 1 else 0)
  {
  }

  lemma ShrSuccAt(w: bv32, s: bv6)
    requires s < 31
    ensures ShrAt(w, s + 1) == ShrAt(w, s) >> 1
  {
  }

  function Shl(w: bv32, s: nat): bv32
    requires s < 32
  {
    IndexSmall(s);
    ShlAt(w, s as bv6)
  }

  function Shr(w: bv32, s: nat): bv32
    requires s < 32
  {
    IndexSmall(s);
    ShrAt(w, s as bv6)
  }

  lemma IndexSucc(s: nat)
    requires s < 31
    ensures (s + 1) as bv6 == s as bv6 + 1 && s as bv6 < 31
  {
    IndexOrder(s, 31);
  }

  lemma ShlOne(w: bv32, i: nat)
    requires i < 32
    ensures Bit(w << 1, i) <==> 0 < i && Bit(w, i - 1)
  {
    hide BitAt;
    IndexSmall(i);
    ShlOneAt(w, i as bv6);
    if 0 < i { IndexSucc(i - 1); }
    IndexInjective(i, 0);
  }

  lemma ShrOne(w: bv32, i: nat)
    requires i < 32
    ensures Bit(w >> 1, i) <==> i < 31 && Bit(w, i + 1)
  {
    hide BitAt;
    IndexSmall(i);
    ShrOneAt(w, i as bv6);
    if i < 31 { IndexSucc(i); } else { IndexInjective(i, 31); }
  }

  lemma ShlSucc(w: bv32, s: nat)
    requires s < 31
    ensures Shl(w, s + 1) == Shl(w, s) << 1
  {
    hide ShlAt;
    IndexSucc(s);
    ShlSuccAt(w, s as bv6);
  }

  lemma ShrSucc(w: bv32, s: nat)
    requires s < 31
    ensures Shr(w, s + 1) == Shr(w, s) >> 1
  {
    hide ShrAt;
    IndexSucc(s);
    ShrSuccAt(w, s as bv6);
  }

  lemma ShiftZero(w: bv32)
    ensures Shl(w, 0) == w && Shr(w, 0) == w
  {
  }

  lemma {:induction false} ShlBits(w: bv32, s: nat, i: nat)
    requires s < 32 && i < 32
    ensures Bit(Shl(w, s), i) <==> s <= i && Bit(w, i - s)
    decreases s
  {
    hide Bit, Shl;
    if s == 0 {
      ShiftZero(w);
    } else {
      ShlSucc(w, s - 1);
      ShlOne(Shl(w, s - 1), i);
      if 0 < i { ShlBits(w, s - 1, i - 1); }
    }
  }

  lemma {:induction false} ShrBits(w: bv32, s: nat, i: nat)
    requires s < 32 && i < 32
    ensures Bit(Shr(w, s), i) <==> i + s < 32 && Bit(w, i + s)
    decreases s
  {
    hide Bit, Shr;
    if s == 0 {
      ShiftZero(w);
    } else {
      ShrSucc(w, s - 1);
      ShrOne(Shr(w, s - 1), i);
      if i < 31 { ShrBits(w, s - 1, i + 1); }
    }
  }

  /** n ones starting at bit s. */
  function ShiftedMask(n: nat, s: nat): bv32
    requires n < 32 && s < 32
  {
    Shl(LowBits(n), s)
  }

  lemma ShiftedMaskBits(n: nat, s: nat, i: nat)
    requires n < 32 && s < 32 && i < 32
    ensures Bit(ShiftedMask(n, s), i) <==> s <= i < s + n
  {
    hide Bit, Shl, LowBits;
    ShlBits(LowBits(n), s, i);
    if s <= i { MaskBits(n, i - s); }
  }

  // ----- ranges of mark bits -----

  /** The marks after words [a, b) have been marked. */
  ghost predicate MarkedRange(marks: seq<bv32>, marks': seq<bv32>, a: nat, b: nat) {
    |marks'| == |marks| && forall i: nat {:trigger Marked(marks', i)} :: Marked(marks', i) <==>
        Marked(marks, i) || (a <= i < b && i / 32 < |marks|)
  }

  function Or(w: bv32, mask: bv32): bv32 { w | mask }

  lemma OrBits(w: bv32, mask: bv32, i: nat)
    requires i < 32
    ensures Bit(Or(w, mask), i) <==> Bit(w, i) || Bit(mask, i)
  {
    hide Bit;
    OrBit(w, mask, i);
  }

  /** Bits s to s + n - 1 of a mark word stand for words 32 l + s and up. */
  lemma InLine(i: nat, l: nat, s: nat, n: nat)
    requires s + n <= 32
    ensures 32 * l + s <= i < 32 * l + s + n <==> i / 32 == l && s <= i % 32 < s + n
  {
  }

  /** A mark word that gains the bits s to s + n - 1. */
  ghost predicate Gains(w: bv32, w': bv32, s: nat, n: nat) {
    forall k: nat {:trigger Bit(w', k)} :: k < 32 ==> (Bit(w', k) <==> Bit(w, k) || s <= k < s + n)
  }

  lemma GainsRange(marks: seq<bv32>, l: nat, w': bv32, s: nat, n: nat)
    requires l < |marks| && s + n <= 32 && Gains(marks[l], w', s, n)
    ensures MarkedRange(marks, marks[l := w'], 32 * l + s, 32 * l + s + n)
  {
    hide Bit;
    forall i: nat
      ensures Marked(marks[l := w'], i) <==> Marked(marks, i) || (32 * l + s <= i < 32 * l + s + n && i / 32 < |marks|)
    {
      InLine(i, l, s, n);
      assert Bit(w', i % 32) <==> Bit(marks[l], i % 32) || s <= i % 32 < s + n;
    }
  }

  lemma GainsRun(w: bv32, s: nat, n: nat)
    requires n < 32 && s < 32
    ensures Gains(w, Or(w, ShiftedMask(n, s)), s, n)
  {
    hide Bit, ShiftedMask, Or;
    forall k: nat | k < 32
      ensures Bit(Or(w, ShiftedMask(n, s)), k) <==> Bit(w, k) || s <= k < s + n
    {
      OrBits(w, ShiftedMask(n, s), k);
      ShiftedMaskBits(n, s, k);
    }
  }

  lemma GainsHigh(w: bv32, s: nat)
    requires s < 32
    ensures Gains(w, Or(w, HighBits(s)), s, 32 - s)
  {
    hide Bit, HighBits, Or;
    forall k: nat | k < 32
      ensures Bit(Or(w, HighBits(s)), k) <==> Bit(w, k) || s <= k
    {
      OrBits(w, HighBits(s), k);
      MaskBits(s, k);
    }
  }

  lemma GainsLow(w: bv32, n: nat)
    requires n < 32
    ensures Gains(w, Or(w, LowBits(n)), 0, n)
  {
    hide Bit, LowBits, Or;
    forall k: nat | k < 32
      ensures Bit(Or(w, LowBits(n)), k) <==> Bit(w, k) || k < n
    {
      OrBits(w, LowBits(n), k);
      MaskBits(n, k);
    }
  }

  lemma GainsAll(w: bv32)
    ensures Gains(w, 0xffffffff, 0, 32)
  {
    hide Bit;
    forall k: nat | k < 32
      ensures Bit(0xffffffff, k)
    {
      AllOnes(k);
    }
  }

  lemma AllOnes(i: nat)
    requires i < 32
    ensures Bit(0xffffffff, i)
  {
    hide Bit;
    ZeroHasNoBits(i);
    NotBit(0, i);
  }

  lemma RangesJoin(m0: seq<bv32>, m1: seq<bv32>, m2: seq<bv32>, a: nat, b: nat, c: nat)
    requires MarkedRange(m0, m1, a, b) && MarkedRange(m1, m2, b, c) && a <= b <= c
    ensures MarkedRange(m0, m2, a, c)
  {
    hide Marked;
    forall i: nat
      ensures Marked(m2, i) <==> Marked(m0, i) || (a <= i < c && i / 32 < |m0|)
    {
      assert Marked(m1, i) <==> Marked(m0, i) || (a <= i < b && i / 32 < |m0|);
    }
  }

  // ----- marking objects -----

  /** Write one mark word. */
  method Write(marks: array<bv32>, l: nat, w': bv32, ghost s: nat, ghost n: nat)
    requires l < marks.Length && s + n <= 32 && Gains(marks[l], w', s, n)
    modifies marks
    ensures MarkedRange(old(marks[..]), marks[..], 32 * l + s, 32 * l + s + n)
  {
    hide Bit, Gains, MarkedRange;
    ghost var m0 := marks[..];
    GainsRange(m0, l, w', s, n);
    marks[l] := w';
    assert marks[..] == m0[l := w'];
  }

  /**
   Mark the words of an object whose marks reach a word boundary or cross it: object a is at bit `shift` of word l.
   */
  method SlowMark(marks: array<bv32>, l: nat, shift: nat, size: nat)
    requires shift < 32 <= shift + size && 32 * l + shift + size < 32 * marks.Length
    modifies marks
    ensures MarkedRange(old(marks[..]), marks[..], 32 * l + shift, 32 * l + shift + size)
  {
    hide Bit, MarkedRange, Gains, HighBits, LowBits, Or;
    ghost var m0, a := marks[..], 32 * l + shift;
    GainsHigh(marks[l], shift);
    Write(marks, l, Or(marks[l], HighBits(shift)), shift, 32 - shift);
    var bits, words := l + 1, size - (32 - shift);
    while words >= 32
      invariant 0 <= words && 32 * bits + words == a + size && a <= 32 * bits
      invariant MarkedRange(m0, marks[..], a, 32 * bits)
    {
      ghost var m1 := marks[..];
      GainsAll(marks[bits]);
      Write(marks, bits, 0xffffffff, 0, 32);
      RangesJoin(m0, m1, marks[..], a, 32 * bits, 32 * bits + 32);
      bits, words := bits + 1, words - 32;
    }
    ghost var m2 := marks[..];
    GainsLow(marks[bits], words);
    Write(marks, bits, Or(marks[bits], LowBits(words)), 0, words);
    RangesJoin(m0, m2, marks[..], a, 32 * bits, a + size);
  }

  /** Mark all words of an object, with one access to a mark word where possible. */
  method MarkAllAligned(marks: array<bv32>, l: nat, shift: nat, size: nat)
    requires 2 <= size && shift < 32 && 32 * l + shift + size < 32 * marks.Length
    modifies marks
    ensures MarkedRange(old(marks[..]), marks[..], 32 * l + shift, 32 * l + shift + size)
  {
    hide Bit, MarkedRange, Gains, ShiftedMask, Or;
    if shift + size > 31 {
      SlowMark(marks, l, shift, size);
    } else {
      GainsRun(marks[l], shift, size);
      Write(marks, l, Or(marks[l], ShiftedMask(size, shift)), shift, size);
    }
  }

  // ----- byte-addressed access -----

  /** The part of a mask, or-ed in at byte o of a mark word, that stays in the word. */
  lemma GainsAtByte(w: bv32, o: nat, s: nat, n: nat)
    requires o < 4 && s < 8 && s + n <= 31
    ensures Gains(w, Or(w, Shl(ShiftedMask(n, s), 8 * o)), 8 * o + s, if 8 * o + s + n <= 32 then n else 32 - 8 * o - s)
  {
    hide Bit, ShiftedMask, Or, Shl;
    var mask, kept := ShiftedMask(n, s), if 8 * o + s + n <= 32 then n else 32 - 8 * o - s;
    var w' := Or(w, Shl(mask, 8 * o));
    forall k: nat | k < 32
      ensures Bit(w', k) <==> Bit(w, k) || 8 * o + s <= k < 8 * o + s + kept
    {
      OrBits(w, Shl(mask, 8 * o), k);
      ShlBits(mask, 8 * o, k);
      if 8 * o <= k { ShiftedMaskBits(n, s, k - 8 * o); }
    }
    assert Gains(w, w', 8 * o + s, kept);
  }

  /** The part that spills over into the next word. */
  lemma GainsSpill(w: bv32, o: nat, s: nat, n: nat)
    requires 0 < o < 4 && s < 8 && s + n <= 31
    ensures Gains(w, Or(w, Shr(ShiftedMask(n, s), 32 - 8 * o)), 0, if 8 * o + s + n <= 32 then 0
              else 8 * o + s + n - 32)
  {
    hide Bit, ShiftedMask, Or, Shr;
    var mask, spill := ShiftedMask(n, s), if 8 * o + s + n <= 32 then 0 else 8 * o + s + n - 32;
    var w' := Or(w, Shr(mask, 32 - 8 * o));
    forall k: nat | k < 32
      ensures Bit(w', k) <==> Bit(w, k) || 0 <= k < 0 + spill
    {
      OrBits(w, Shr(mask, 32 - 8 * o), k);
      ShrBits(mask, 32 - 8 * o, k);
      if k + 32 - 8 * o < 32 { ShiftedMaskBits(n, s, k + 32 - 8 * o); }
    }
    assert Gains(w, w', 0, spill);
  }

  /**
   The same with a 32-bit access at any byte: the object is at bit `shift` of byte o of word l, and the
   access covers the rest of that word and the first bytes of the next. Beyond the last word nothing is set.
   */
  method MarkAllBytewise(marks: array<bv32>, l: nat, o: nat, shift: nat, size: nat)
    requires 2 <= size && o < 4 && shift < 8 && 32 * l + 8 * o + shift + size < 32 * marks.Length
    modifies marks
    ensures MarkedRange(old(marks[..]), marks[..], 32 * l + 8 * o + shift, 32 * l + 8 * o + shift + size)
  {
    hide Bit, MarkedRange, Gains, ShiftedMask, Or, Shl, Shr;
    if shift + size > 31 {
      SlowMark(marks, l, 8 * o + shift, size);
      return;
    }
    ghost var m0, a, end := marks[..], 32 * l + 8 * o + shift, 8 * o + shift + size;
    var mask := ShiftedMask(size, shift);
    GainsAtByte(marks[l], o, shift, size);
    Write(marks, l, Or(marks[l], Shl(mask, 8 * o)), 8 * o + shift, if end <= 32 then size else 32 - 8 * o - shift);
    if 0 < o && l + 1 < marks.Length {
      ghost var m1 := marks[..];
      GainsSpill(marks[l + 1], o, shift, size);
      Write(marks, l + 1, Or(marks[l + 1], Shr(mask, 32 - 8 * o)), 0, if end <= 32 then 0 else end - 32);
      if end > 32 {
        RangesJoin(m0, m1, marks[..], a, 32 * l + 32, a + size);
      } else {
        RangeSame(m0, m1, marks[..], a, a + size, 32 * l + 32);
      }
    }
  }

  lemma RangeSame(m0: seq<bv32>, m1: seq<bv32>, m2: seq<bv32>, a: nat, b: nat, c: nat)
    requires MarkedRange(m0, m1, a, b) && MarkedRange(m1, m2, c, c)
    ensures MarkedRange(m0, m2, a, b)
  {
    hide Marked;
    forall i: nat
      ensures Marked(m2, i) <==> Marked(m0, i) || (a <= i < b && i / 32 < |m0|)
    {
      assert Marked(m1, i) <==> Marked(m0, i) || (a <= i < b && i / 32 < |m0|);
    }
  }

  // ----- grey marks -----

  /** Mark the first word of an object unless it is marked already. */
  method MarkGreyIfNotMarked(marks: array<bv32>, a: nat) returns (was: bool)
    requires a / 32 < marks.Length
    modifies marks
    ensures was == Marked(old(marks[..]), a)
    ensures if was then marks[..] == old(marks[..]) else MarkedRange(old(marks[..]), marks[..], a, a + 1)
  {
    hide Bit, MarkedRange, Gains, Or, ShiftedMask;
    var l, shift := a / 32, a % 32;
    was := Test(marks[l], shift);
    if !was {
      OneBitMask(shift);
      GainsRun(marks[l], shift, 1);
      Write(marks, l, Or(marks[l], OneBit(shift)), shift, 1);
    }
  }

  lemma OneBitMask(s: nat)
    requires s < 32
    ensures ShiftedMask(1, s) == OneBit(s)
  {
  }

  /** Grey objects are marked at their first word only. */
  function IsGrey(marks: seq<bv32>, a: nat): (r: bool)
    requires (a + 1) / 32 < |marks|
    ensures r <==> Marked(marks, a) && !Marked(marks, a + 1)
  {
    Test(marks[a / 32], a % 32) && !Test(marks[(a + 1) / 32], (a + 1) % 32)
  }
}
