/**
 The logarithmic size classes of the compact allocator (32-bit target: headers of 8 bytes, free areas of at least 16).
 */
module SizeClasses {

  const NUMBER_OF_BUCKETS: nat := 136

  function Pow2(n: nat): (r: nat)
    ensures 0 < r
  {
    if n == 0 then 1 else 2 * Pow2(n - 1)
  }

  /** The position of the highest set bit. */
  function Log2(n: nat): (r: nat)
    requires 0 < n
    ensures Pow2(r) <= n < 2 * Pow2(r)
  {
    if n == 1 then 0 else Log2(n / 2) + 1
  }

  datatype Class = Class(index: int, rounded: nat)

  /** The size class of a payload: index and rounded size. `increment` is 1 to round up and 0 to round down. */
  function SizeToIndex(size: nat, adjust: nat, increment: nat): Class
    requires 0 < size && adjust < 128 && increment <= 1
  {
    if size <= 128 then
      Class(size / 8 - 1, size)
    else
      var adjusted := size - adjust;
      var row := if Log2(adjusted) < 3 then 0 else Log2(adjusted) - 3;
      var column := adjusted / Pow2(row) % 8;
      var rowColumn := 8 * row + column + increment;
      Class(rowColumn + 15 - 32, RowColumnSize(rowColumn))
  }

  /** The size at a row and column: four leading bits 1xxx, shifted left by the row. */
  function RowColumnSize(rowColumn: nat): nat {
    (8 + rowColumn % 8) * Pow2(rowColumn / 8)
  }

  function RoundUp8(size: nat): (r: nat)
    ensures r % 8 == 0 && size <= r < size + 8
  {
    (size + 7) / 8 * 8
  }

  function Allocating(size: nat): Class
    requires 0 < size
  {
    SizeToIndex(RoundUp8(size), 8, 1)
  }

  function Freeing(size: nat): int
    requires 0 < size
  {
    SizeToIndex(size, 0, 0).index
  }

  /** The smallest payload that belongs into bucket b: what the size classes mean. */
  function BucketFloor(b: nat): nat {
    if b < 15 then 8 * (b + 1) else RowColumnSize(b + 17)
  }

  lemma {:induction false} BucketFloorGrows(b: nat)
    ensures BucketFloor(b) < BucketFloor(b + 1)
  {
    if b >= 15 {
      var q, r := (b + 17) / 8, (b + 17) % 8;
      if r == 7 {
        assert (b + 18) / 8 == q + 1 && (b + 18) % 8 == 0;
        assert Pow2(q + 1) == 2 * Pow2(q);
      } else {
        assert (b + 18) / 8 == q && (b + 18) % 8 == r + 1;
        assert (8 + r + 1) * Pow2(q) == (8 + r) * Pow2(q) + Pow2(q);
      }
    } else if b == 14 {
      assert Pow2(4) == 16;
    }
  }

  lemma {:induction false} BucketFloorMonotone(b: nat, c: nat)
    requires b <= c
    ensures BucketFloor(b) <= BucketFloor(c)
    decreases c - b
  {
    if b < c {
      BucketFloorMonotone(b, c - 1);
      BucketFloorGrows(c - 1);
    }
  }

  lemma Pow2Add3(n: nat)
    ensures Pow2(n + 3) == 8 * Pow2(n)
  {
    assert Pow2(n + 2) == 4 * Pow2(n);
  }

  lemma Quotient(n: nat, p: nat)
    requires 0 < p && 8 * p <= n < 16 * p
    ensures 8 <= n / p < 16 && n / p * p <= n < (n / p + 1) * p
  {
    var q, r := n / p, n % p;
    assert n == q * p + r && 0 <= r < p;
    MulLess(8, q + 1, p);
    MulLess(q, 16, p);
  }

  lemma MulLess(a: nat, b: nat, p: nat)
    requires 0 < p && a * p < b * p
    ensures a < b
  {
  }

  lemma LeadingFour(q: nat)
    requires 8 <= q < 16
    ensures q % 8 == q - 8
  {
  }

  /** A number from 128 up splits into its leading four bits and the rest. */
  lemma RowAndColumn(n: nat, row: nat, column: nat)
    requires 128 <= n && row + 3 == Log2(n) && column == n / Pow2(row) % 8
    ensures column < 8 && (8 + column) * Pow2(row) <= n < (9 + column) * Pow2(row)
  {
    hide Pow2, Log2;
    var p := Pow2(row);
    Pow2Add3(row);
    Quotient(n, p);
    LeadingFour(n / p);
    assert n / p == 8 + column;
  }

  lemma {:induction false} Pow2Monotone(m: nat, n: nat)
    requires m <= n
    ensures Pow2(m) <= Pow2(n)
    decreases n
  {
    if m < n { Pow2Monotone(m, n - 1); }
  }

  lemma Log2AtLeast7(n: nat)
    requires 128 <= n
    ensures 7 <= Log2(n)
  {
    assert Pow2(6) == 64 by { Pow2Add3(3); assert Pow2(3) == 8; }
    if Log2(n) <= 6 {
      Pow2Monotone(Log2(n), 6);
    }
  }

  lemma Floor128()
    ensures BucketFloor(15) == 128 && BucketFloor(16) == 144
  {
    assert Pow2(4) == 16;
  }

  /** Freeing files a payload in the last bucket whose floor it reaches. */
  lemma FreeingIsLastBucketReached(size: nat)
    requires 8 <= size
    ensures 0 <= Freeing(size)
    ensures BucketFloor(Freeing(size)) <= size < BucketFloor(Freeing(size) + 1)
  {
    hide Log2, RowColumnSize;
    if size <= 128 {
      Floor128();
    } else {
      Log2AtLeast7(size);
      var row := Log2(size) - 3;
      var column := size / Pow2(row) % 8;
      RowAndColumn(size, row, column);
      RowColumnAt(row, column);
    }
  }

  lemma SizeAt(rowColumn: nat, row: nat, column: nat)
    requires column < 8 && rowColumn == 8 * row + column
    ensures RowColumnSize(rowColumn) == (8 + column) * Pow2(row)
  {
    hide Pow2;
    assert rowColumn / 8 == row && rowColumn % 8 == column;
  }

  lemma NextRow(row: nat)
    ensures RowColumnSize(8 * row + 8) == 16 * Pow2(row)
  {
    SizeAt(8 * row + 8, row + 1, 0);
  }

  lemma RowColumnAt(row: nat, column: nat)
    requires column < 8
    ensures RowColumnSize(8 * row + column) == (8 + column) * Pow2(row)
    ensures RowColumnSize(8 * row + column + 1) == (9 + column) * Pow2(row)
  {
    hide Pow2, RowColumnSize;
    SizeAt(8 * row + column, row, column);
    if column == 7 {
      NextRow(row);
      assert 8 * row + column + 1 == 8 * row + 8;
    } else {
      var next := column + 1;
      SizeAt(8 * row + next, row, next);
      assert 8 * row + column + 1 == 8 * row + next;
    }
  }

  lemma AllocatingSmall(size: nat)
    requires 0 < size && RoundUp8(size) <= 128
    ensures Allocating(size).index == RoundUp8(size) / 8 - 1 && Allocating(size).rounded == RoundUp8(size)
  {
  }

  /** Beyond 128 bytes the class is the next one after the row and column of the rounded size less 8. */
  lemma AllocatingLarge(size: nat) returns (row: nat, column: nat)
    requires 0 < size && 128 < RoundUp8(size)
    ensures 4 <= row && column < 8
    ensures (8 + column) * Pow2(row) <= RoundUp8(size) - 8 < (9 + column) * Pow2(row)
    ensures Allocating(size).index == 8 * row + column - 16
    ensures Allocating(size).rounded == RowColumnSize(8 * row + column + 1)
  {
    hide Log2, RowColumnSize, Pow2, RoundUp8;
    var n := RoundUp8(size) - 8;
    Log2AtLeast7(n);
    row := Log2(n) - 3;
    column := n / Pow2(row) % 8;
    RowAndColumn(n, row, column);
  }

  /** Allocating picks the first bucket whose floor covers the request, and rounds the request up to that floor. */
  lemma AllocatingIsFirstBucketThatCovers(size: nat)
    requires 0 < size
    ensures var c := Allocating(size);
            && 0 <= c.index && c.rounded == BucketFloor(c.index) && size <= c.rounded
            && (c.index > 0 ==> BucketFloor(c.index - 1) < size)
  {
    hide *;
    if RoundUp8(size) <= 128 {
      AllocatingSmall(size);
      SmallFloors(size);
    } else {
      var row, column := AllocatingLarge(size);
      LargeFloors(row, column);
      NextFloorCovers(RoundUp8(size) - 8, row, column, size);
    }
  }

  lemma LargeFloors(row: nat, column: nat)
    requires 4 <= row && column < 8
    ensures BucketFloor(8 * row + column - 16) == RowColumnSize(8 * row + column + 1) == (9 + column) * Pow2(row)
    ensures BucketFloor(8 * row + column - 17) == (8 + column) * Pow2(row)
  {
    hide RowColumnSize, Pow2;
    RowColumnAt(row, column);
  }

  lemma SmallFloors(size: nat)
    requires 0 < size && RoundUp8(size) <= 128
    ensures var b := RoundUp8(size) / 8 - 1;
            0 <= b && RoundUp8(size) == BucketFloor(b) && (b > 0 ==> BucketFloor(b - 1) < size)
  {
    hide RowColumnSize;
    Floor128();
  }

  lemma {:induction false} Pow2DivisibleBy16(n: nat)
    requires 4 <= n
    ensures Pow2(n) % 16 == 0
  {
    if n == 4 { assert Pow2(4) == 16; } else { Pow2DivisibleBy16(n - 1); }
  }

  lemma NextFloorCovers(n: nat, row: nat, column: nat, size: nat)
    requires 4 <= row && column < 8 && n % 8 == 0 && n < size <= n + 8
    requires (8 + column) * Pow2(row) <= n < (9 + column) * Pow2(row)
    ensures (8 + column) * Pow2(row) < size <= (9 + column) * Pow2(row)
  {
    Pow2DivisibleBy16(row);
    var k := Pow2(row) / 16;
    assert Pow2(row) == 16 * k;
    assert (9 + column) * Pow2(row) == 8 * (2 * (9 + column) * k);
  }

  /** A free payload filed in the request's bucket or a later one is large enough, whichever one is taken. */
  lemma AnyInBucketFits(size: nat, payload: nat)
    requires 0 < size && 8 <= payload
    ensures Freeing(payload) >= Allocating(size).index <==> payload >= Allocating(size).rounded
  {
    hide Allocating, Freeing, BucketFloor;
    AllocatingIsFirstBucketThatCovers(size);
    FreeingIsLastBucketReached(payload);
    var b, f := Allocating(size).index, Freeing(payload);
    if b <= f { BucketFloorMonotone(b, f); } else { BucketFloorMonotone(f + 1, b); }
  }

  lemma FloorAligned(b: nat)
    ensures BucketFloor(b) % 8 == 0
  {
    if b >= 15 {
      var row, column := (b + 17) / 8, (b + 17) % 8;
      Pow2DivisibleBy16(row);
      var k := Pow2(row) / 16;
      SizeAt(b + 17, row, column);
      assert (8 + column) * Pow2(row) == 8 * (2 * (8 + column) * k);
    }
  }

  /** Rounded sizes are multiples of 8 and cover the request; beyond 128 bytes less than one eighth is wasted. */
  lemma RoundingIsTight(size: nat)
    requires 0 < size
    ensures var r := Allocating(size).rounded;
            && r % 8 == 0 && size <= r
            && (RoundUp8(size) <= 128 ==> r == RoundUp8(size))
            && (RoundUp8(size) > 128 ==> 8 * r < 9 * RoundUp8(size))
  {
    hide Allocating, BucketFloor, RowColumnSize, Pow2, RoundUp8;
    AllocatingIsFirstBucketThatCovers(size);
    FloorAligned(Allocating(size).index);
    if RoundUp8(size) > 128 {
      var row, column := AllocatingLarge(size);
      RowColumnAt(row, column);
      EighthAbove(row, column, RoundUp8(size) - 8);
    } else {
      AllocatingSmall(size);
    }
  }

  lemma EighthAbove(row: nat, column: nat, n: nat)
    requires column < 8 && (8 + column) * Pow2(row) <= n
    ensures 8 * ((9 + column) * Pow2(row)) < 9 * (n + 8)
  {
    var p := Pow2(row);
    assert 8 * ((9 + column) * p) == 8 * ((8 + column) * p) + 8 * p;
    assert 8 * p <= (8 + column) * p;
  }

  /** The last bucket starts at 4 MB. */
  lemma LastBucket()
    ensures BucketFloor(135) == 4194304 && BucketFloor(136) == 4718592
  {
    assert Pow2(19) == 524288 by {
      assert Pow2(4) == 16;
      Pow2Add3(4); Pow2Add3(7); Pow2Add3(10); Pow2Add3(13); Pow2Add3(16);
    }
    SizeAt(152, 19, 0);
    SizeAt(153, 19, 1);
  }

  /** Payloads below 9 * 2^19 bytes have a bucket. */
  lemma BucketExists(payload: nat)
    requires 8 <= payload
    ensures 0 <= Freeing(payload) && (Freeing(payload) < NUMBER_OF_BUCKETS <==> payload < 4718592)
  {
    hide Freeing, BucketFloor;
    FreeingIsLastBucketReached(payload);
    LastBucket();
    var f := Freeing(payload);
    if f < 136 { BucketFloorMonotone(f + 1, 136); } else { BucketFloorMonotone(136, f); }
  }

  /** Requests up to 4 MB have a bucket. */
  lemma RequestHasBucket(size: nat)
    requires 0 < size <= 4194304
    ensures 0 <= Allocating(size).index < NUMBER_OF_BUCKETS && Allocating(size).rounded <= 4194304
  {
    hide Allocating, BucketFloor;
    AllocatingIsFirstBucketThatCovers(size);
    LastBucket();
    var b := Allocating(size).index;
    if b > 135 { BucketFloorMonotone(135, b - 1); } else { BucketFloorMonotone(b, 135); }
  }

  /** The class of a request is settled by the two bucket sizes around it. */
  lemma RoundedTo(size: nat, b: nat)
    requires 0 < b && BucketFloor(b - 1) < size <= BucketFloor(b)
    ensures 0 < size && Allocating(size) == Class(b, BucketFloor(b))
  {
    hide Allocating, BucketFloor;
    AllocatingIsFirstBucketThatCovers(size);
    var c := Allocating(size);
    if c.index < b { BucketFloorMonotone(c.index, b - 1); }
    if b < c.index { BucketFloorMonotone(b, c.index - 1); }
  }

  /** The buckets of a page or more: 4096 is one of the bucket sizes. */
  lemma PageOrMore(payload: nat)
    requires 8 <= payload
    ensures Freeing(4096) <= Freeing(payload) <==> 4096 <= payload
  {
    hide Freeing;
    FloorOf4096();
    FreeingIsLastBucketReached(4096);
    FreeingIsLastBucketReached(payload);
    var b, c := Freeing(4096), Freeing(payload);
    if b < 55 { BucketFloorMonotone(b + 1, 55); }
    if 55 < b { BucketFloorMonotone(56, b); }
    if c < b { BucketFloorMonotone(c + 1, b); } else { BucketFloorMonotone(b, c); }
  }

  lemma FloorOf4096()
    ensures BucketFloor(54) == 3840 && BucketFloor(55) == 4096 < BucketFloor(56)
  {
    BucketFloorGrows(55);
    SmallPowers();
  }

  lemma SmallPowers()
    ensures Pow2(6) == 64 && Pow2(7) == 128 && Pow2(8) == 256 && Pow2(9) == 512 && Pow2(10) == 1024
  {
    assert Pow2(3) == 8;
    assert Pow2(6) == 64;
  }
}
