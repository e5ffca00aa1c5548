/** The bitmap over the free-list buckets: five words, the first bucket in the highest bit of the first word. */
module BucketBits {
  import opened Bits

  /** Does the map say that bucket i has entries? */
  predicate Has(words: seq<bv32>, i: nat) {
    i / 32 < |words| && Bit(words[i / 32], 31 - i % 32)
  }

  function SetFreeListBit(words: seq<bv32>, i: nat): seq<bv32>
    requires i / 32 < |words|
  {
    words[i / 32 := SetOne(words[i / 32], 31 - i % 32)]
  }

  function ClearFreeListBit(words: seq<bv32>, i: nat): seq<bv32>
    requires i / 32 < |words|
  {
    words[i / 32 := ClearOne(words[i / 32], 31 - i % 32)]
  }

  lemma SetAffectsOne(words: seq<bv32>, i: nat, j: nat)
    requires i / 32 < |words|
    ensures Has(SetFreeListBit(words, i), j) <==> Has(words, j) || i == j
  {
    hide Bit, SetOne;
    if i / 32 == j / 32 {
      SetOneBits(words[i / 32], 31 - i % 32, 31 - j % 32);
    }
  }

  lemma ClearAffectsOne(words: seq<bv32>, i: nat, j: nat)
    requires i / 32 < |words|
    ensures Has(ClearFreeListBit(words, i), j) <==> Has(words, j) && i != j
  {
    hide Bit, ClearOne;
    if i / 32 == j / 32 {
      ClearOneBits(words[i / 32], 31 - i % 32, 31 - j % 32);
    }
  }

  /** The number of leading zeros; the recursion runs down from bit `top`. */
  function LeadingZeros(w: bv32, top: nat): (j: nat)
    requires top < 32
    requires forall i: nat :: top < i < 32 ==> !Bit(w, i)
    ensures 31 - top <= j <= 32
    ensures j < 32 ==> Bit(w, 31 - j)
    ensures forall i: nat :: 31 - j < i < 32 ==> !Bit(w, i)
    decreases top
  {
    if Test(w, top) then 31 - top else if top == 0 then 32 else LeadingZeros(w, top - 1)
  }

  /** A word without set bits is zero. */
  lemma NoBits(w: bv32)
    requires forall i: nat :: i < 32 ==> !Bit(w, i)
    ensures w == 0
  {
    assert !Bit(w, 0) && !Bit(w, 1) && !Bit(w, 2) && !Bit(w, 3) && !Bit(w, 4) && !Bit(w, 5) && !Bit(w, 6) && !Bit(w, 7);
    assert !Bit(w, 8) && !Bit(w, 9) && !Bit(w, 10) && !Bit(w, 11) && !Bit(w, 12) && !Bit(w, 13) && !Bit(w, 14)
        && !Bit(w, 15);
    assert !Bit(w, 16) && !Bit(w, 17) && !Bit(w, 18) && !Bit(w, 19) && !Bit(w, 20) && !Bit(w, 21) && !Bit(w, 22)
        && !Bit(w, 23);
    assert !Bit(w, 24) && !Bit(w, 25) && !Bit(w, 26) && !Bit(w, 27) && !Bit(w, 28) && !Bit(w, 29) && !Bit(w, 30)
        && !Bit(w, 31);
  }

  /** A non-zero word has fewer than 32 leading zeros. */
  lemma SomeBit(w: bv32)
    requires w != 0
    ensures LeadingZeros(w, 31) < 32
  {
    hide Bit, LeadingZeros;
    if LeadingZeros(w, 31) == 32 { NoBits(w); }
  }

  /** The first non-empty bucket at or above index, or -1. */
  method FindNonemptyBucket(words: array<bv32>, index: nat) returns (b: int)
    requires words.Length == 5 && index < 136
    requires forall i: nat :: 136 <= i ==> !Has(words[..], i)
    ensures b == -1 ==> forall i: nat :: index <= i ==> !Has(words[..], i)
    ensures b != -1 ==> index <= b < 136 && Has(words[..], b) && forall i: nat :: index <= i < b ==> !Has(words[..], i)
  {
    hide Bit, KeepThrough, LeadingZeros;
    var k := index % 32;
    var mask := KeepThrough(words[index / 32], 31 - k);
    if mask != 0 {
      SomeBit(mask);
      b := index / 32 * 32 + LeadingZeros(mask, 31);
      FirstWord(words[..], index, b);
      return;
    }
    FirstWordEmpty(words[..], index);
    var at := (index / 32 + 1) * 32;
    while at <= 136
      invariant index < at && at % 32 == 0 && at <= 160
      invariant forall i: nat :: index <= i < at ==> !Has(words[..], i)
      decreases 160 - at
    {
      mask := words[at / 32];
      if mask != 0 {
        SomeBit(mask);
        b := at + LeadingZeros(mask, 31);
        LaterWord(words[..], at, b);
        return;
      }
      LaterWordEmpty(words[..], at);
      at := at + 32;
    }
    b := -1;
  }

  lemma FirstWord(words: seq<bv32>, index: nat, b: nat)
    requires index / 32 < |words| && KeepThrough(words[index / 32], 31 - index % 32) != 0
    requires b == index / 32 * 32 + LeadingZeros(KeepThrough(words[index / 32], 31 - index % 32), 31)
    ensures index <= b && Has(words, b) && forall i: nat :: index <= i < b ==> !Has(words, i)
  {
    hide Bit, KeepThrough, LeadingZeros;
    var w := words[index / 32];
    var m := KeepThrough(w, 31 - index % 32);
    SomeBit(m);
    var j := LeadingZeros(m, 31);
    KeepThroughBits(w, 31 - index % 32, 31 - j);
    assert b / 32 == index / 32 && b % 32 == j;
    forall i: nat | index <= i < b
      ensures !Has(words, i)
    {
      assert i / 32 == index / 32;
      KeepThroughBits(w, 31 - index % 32, 31 - i % 32);
    }
  }

  lemma FirstWordEmpty(words: seq<bv32>, index: nat)
    requires index / 32 < |words| && KeepThrough(words[index / 32], 31 - index % 32) == 0
    ensures forall i: nat :: index <= i < (index / 32 + 1) * 32 ==> !Has(words, i)
  {
    hide Bit, KeepThrough;
    forall i: nat | index <= i < (index / 32 + 1) * 32
      ensures !Has(words, i)
    {
      assert i / 32 == index / 32;
      KeepThroughBits(words[index / 32], 31 - index % 32, 31 - i % 32);
      ZeroHasNoBits(31 - i % 32);
    }
  }

  lemma LaterWord(words: seq<bv32>, at: nat, b: nat)
    requires at % 32 == 0 && at / 32 < |words| && words[at / 32] != 0
    requires b == at + LeadingZeros(words[at / 32], 31)
    ensures at <= b < at + 32 && Has(words, b) && forall i: nat :: at <= i < b ==> !Has(words, i)
  {
    hide Bit, LeadingZeros;
    SomeBit(words[at / 32]);
    assert b / 32 == at / 32 && b % 32 == b - at;
    forall i: nat | at <= i < b
      ensures !Has(words, i)
    {
      assert i / 32 == at / 32 && i % 32 == i - at;
    }
  }

  lemma LaterWordEmpty(words: seq<bv32>, at: nat)
    requires at % 32 == 0 && at / 32 < |words| && words[at / 32] == 0
    ensures forall i: nat :: at <= i < at + 32 ==> !Has(words, i)
  {
    hide Bit;
    forall i: nat | at <= i < at + 32
      ensures !Has(words, i)
    {
      assert i / 32 == at / 32;
      ZeroHasNoBits(31 - i % 32);
    }
  }
}
