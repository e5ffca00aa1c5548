/** The free list of the old generation: twelve buckets of chunks by power of two. */
module ChunkLists {
  import opened Chains
  import opened SizeClasses

  // ----- the highest bit -----

  lemma ShiftDown(v: nat, p: nat, x: nat, b: nat, t: nat)
    requires t * b <= x < (t + 1) * b && p * x <= v < p * (x + 1)
    ensures p * b * t <= v < p * b * (t + 1)
  {
    Scale(p, t * b, x);
    Scale(p, x + 1, (t + 1) * b);
    assert p * b * t == p * (t * b) && p * b * (t + 1) == p * ((t + 1) * b);
  }

  lemma Scale(p: nat, a: nat, b: nat)
    requires a <= b
    ensures p * a <= p * b
  {
  }

  lemma Double(a: nat, b: nat)
    ensures a * (2 * b) == 2 * (a * b)
  {
  }

  lemma {:induction false} Pow2Sum(m: nat, n: nat)
    ensures Pow2(m + n) == Pow2(m) * Pow2(n)
  {
    if n > 0 {
      Pow2Sum(m, n - 1);
      Double(Pow2(m), Pow2(n - 1));
    }
  }

  /** What remains of v after its lowest r bits have been shifted out. */
  ghost predicate Shifted(v: nat, r: nat, x: nat) {
    Pow2(r) * x <= v < Pow2(r) * (x + 1)
  }

  lemma ShiftMore(v: nat, r: nat, x: nat, k: nat, b: nat, t: nat)
    requires Shifted(v, r, x) && b == Pow2(k) && t * b <= x < (t + 1) * b
    ensures Shifted(v, r + k, t)
  {
    Pow2Sum(r, k);
    ShiftDown(v, Pow2(r), x, b, t);
  }

  lemma {:induction false} HighestBitUnique(v: nat, r: nat)
    requires Pow2(r) <= v < 2 * Pow2(r)
    ensures 0 < v && Log2(v) == r
  {
    if Log2(v) < r {
      Pow2Monotone(Log2(v) + 1, r);
    } else if r < Log2(v) {
      Pow2Monotone(r + 1, Log2(v));
    }
  }

  lemma AllShifted(v: nat)
    ensures Shifted(v, 0, v)
  {
  }

  /** The first two steps of the search narrow the number down to 16 bits. */
  method HighHalf(v: nat) returns (x: nat, r: nat)
    requires v < 0x1_0000_0000_0000_0000
    ensures Shifted(v, r, x) && x < 0x1_0000 && (x == 0 ==> r == 0)
  {
    hide Pow2, Shifted;
    AllShifted(v);
    Powers();
    x, r := v, 0;
    var t := x / 0x1_0000_0000;
    ShiftMore(v, r, x, 32, 0x1_0000_0000, t);
    if t != 0 { x, r := t, r + 32; }
    t := x / 0x1_0000;
    ShiftMore(v, r, x, 16, 0x1_0000, t);
    if t != 0 { x, r := t, r + 16; }
  }

  /** The position of the highest set bit of the absolute value of a signed 64-bit number, by halving the range. */
  method HighestBit(number: int) returns (r: nat)
    requires -0x8000_0000_0000_0000 <= number < 0x8000_0000_0000_0000
    ensures r == if number == 0 then 0 else Log2(if number < 0 then -number else number)
  {
    hide Log2, Pow2, Shifted;
    Powers();
    var v: nat := if number > 0 then number else -number;
    var x;
    x, r := HighHalf(v);
    var t := x / 0x100;
    ShiftMore(v, r, x, 8, 0x100, t);
    if t != 0 { x, r := t, r + 8; }
    t := x / 0x10;
    ShiftMore(v, r, x, 4, 0x10, t);
    if t != 0 { x, r := t, r + 4; }
    t := x / 4;
    ShiftMore(v, r, x, 2, 4, t);
    if t != 0 { x, r := t, r + 2; }
    LastBit(v, r, x);
    if x > 1 { r := r + 1; }
  }

  lemma Powers()
    ensures Pow2(2) == 4 && Pow2(4) == 0x10 && Pow2(8) == 0x100 && Pow2(16) == 0x1_0000 && Pow2(32) == 0x1_0000_0000
  {
    assert Pow2(2) == 4;
    Pow2Sum(2, 2);
    Pow2Sum(4, 4);
    Pow2Sum(8, 8);
    Pow2Sum(16, 16);
  }

  lemma LastBit(v: nat, r: nat, x: nat)
    requires Shifted(v, r, x) && x < 4 && (x == 0 ==> r == 0)
    ensures v == 0 ==> x == 0 && r == 0
    ensures v > 0 ==> x > 0 && Log2(v) == if x > 1 then r + 1 else r
  {
    if v > 0 {
      assert x > 0;
      HighestBitUnique(v, if x > 1 then r + 1 else r);
    } else {
      assert x == 0;
    }
  }

  // ----- the buckets -----

  const NUMBER_OF_CHUNK_BUCKETS: nat := 12
  /** A chunk holds its class, its size and a link: three words of four bytes. */
  const MIN_CHUNK: nat := 12

  function ChunkBucket(size: nat): nat
    requires 2 <= size
  {
    Log2AtLeast1(size);
    if Log2(size) - 1 >= 12 then 11 else Log2(size) - 1
  }

  lemma Log2AtLeast1(size: nat)
    requires 2 <= size
    ensures 1 <= Log2(size)
  {
  }

  /** Chunks from the request's bucket on are large enough; chunks below the one before it are too small. */
  lemma BucketsBySize(min: nat, size: nat)
    requires 2 <= min && 2 <= size
    ensures Log2(min) <= ChunkBucket(size) ==> min <= size
    ensures min <= size ==> Log2(min) <= ChunkBucket(size) + 1 || ChunkBucket(size) == 11
  {
    hide Log2;
    Log2AtLeast1(min);
    Log2AtLeast1(size);
    if Log2(min) <= ChunkBucket(size) { Pow2Monotone(Log2(min) + 1, Log2(size)); }
    if min <= size && Log2(size) < Log2(min) { Pow2Monotone(Log2(size) + 1, Log2(min)); }
  }

  ghost function All(chains: seq<seq<nat>>): (s: set<nat>)
    ensures forall x :: x in s <==> exists b :: 0 <= b < |chains| && x in chains[b]
  {
    if chains == [] then {} else (set x | x in chains[0]) + All(chains[1..])
  }

  /** The link and size words of chunks. */
  class ChunkMemory {
    var next: map<nat, nat>
    var size: map<nat, nat>
  }

  /** Every chunk of a chain has a size that belongs into the bucket. */
  ghost predicate Sized(size: map<nat, nat>, chain: seq<nat>, b: nat) {
    forall x :: x in chain ==> x in size && MIN_CHUNK <= size[x] && ChunkBucket(size[x]) == b
  }

  ghost predicate BucketOk(next: map<nat, nat>, size: map<nat, nat>, head: nat, chain: seq<nat>, b: nat) {
    Chained(next, chain) && head == Head(chain) && Sized(size, chain, b)
  }

  ghost predicate BucketsOk(next: map<nat, nat>, size: map<nat, nat>, heads: seq<nat>, chains: seq<seq<nat>>) {
    && |heads| == |chains| == 12
    && forall b {:trigger chains[b]} :: 0 <= b < 12 ==> BucketOk(next, size, heads[b], chains[b], b)
  }

  // ----- adding a chunk -----

  lemma AllPush(chains: seq<seq<nat>>, b: nat, a: nat)
    requires b < |chains|
    ensures All(chains[b := [a] + chains[b]]) == All(chains) + {a}
  {
    var chains' := chains[b := [a] + chains[b]];
    forall x | x in All(chains) + {a}
      ensures x in All(chains')
    {
      if x == a {
        assert a in chains'[b];
      } else {
        var c :| 0 <= c < |chains| && x in chains[c];
        assert x in chains'[c];
      }
    }
  }

  lemma Pushed(next: map<nat, nat>, size: map<nat, nat>, heads: seq<nat>, chains: seq<seq<nat>>, b: nat, a: nat,
               bytes: nat)
    requires BucketsOk(next, size, heads, chains) && a !in All(chains) && a != 0 && MIN_CHUNK <= bytes
    requires b == ChunkBucket(bytes) < 12
    ensures BucketsOk(next[a := heads[b]], size[a := bytes], heads[b := a], chains[b := [a] + chains[b]])
  {
    hide ChunkBucket;
    var next', chains' := next[a := heads[b]], chains[b := [a] + chains[b]];
    forall c | 0 <= c < 12
      ensures BucketOk(next', size[a := bytes], heads[b := a][c], chains'[c], c)
    {
      assert BucketOk(next, size, heads[c], chains[c], c);
      ChainFrame(next, next', chains[c]);
      if c == b { ChainPush(next', chains[b], a); }
    }
  }

  // ----- removing a chunk -----

  /** A chunk is in the chain of its bucket only. */
  lemma AllRemove(next: map<nat, nat>, size: map<nat, nat>, heads: seq<nat>, chains: seq<seq<nat>>, b: nat, i: nat)
    requires BucketsOk(next, size, heads, chains) && b < 12 && i < |chains[b]|
    ensures All(chains[b := Without(chains[b], i)]) == All(chains) - {chains[b][i]}
  {
    hide ChunkBucket;
    var a, chains' := chains[b][i], chains[b := Without(chains[b], i)];
    ChainUnlink(next, chains[b], i);
    forall x
      ensures x in All(chains') <==> x in All(chains) && x != a
    {
      if x in All(chains') {
        var c :| 0 <= c < 12 && x in chains'[c];
        assert x in chains[c];
        assert BucketOk(next, size, heads[c], chains[c], c) && BucketOk(next, size, heads[b], chains[b], b);
      }
      if x in All(chains) && x != a {
        var c :| 0 <= c < 12 && x in chains[c];
        assert x in chains'[c];
      }
    }
  }

  /** Unlinking the i-th chunk of a chain; the chunk's own link is cleared. */
  lemma Removed(next: map<nat, nat>, size: map<nat, nat>, heads: seq<nat>, chains: seq<seq<nat>>, b: nat, i: nat)
    requires BucketsOk(next, size, heads, chains) && b < 12 && i < |chains[b]|
    ensures chains[b][i] in next && next[chains[b][i]] == After(chains[b], i)
    ensures var a, rest := chains[b][i], After(chains[b], i);
            var next' := (if i == 0 then next else next[chains[b][i - 1] := rest])[a := 0];
            BucketsOk(next', size, if i == 0 then heads[b := rest] else heads, chains[b := Without(chains[b], i)])
  {
    hide ChunkBucket;
    var a, rest, mid := chains[b][i], After(chains[b], i), if i == 0 then next
        else next[chains[b][i - 1] := After(chains[b], i)];
    var next' := mid[a := 0];
    assert BucketOk(next, size, heads[b], chains[b], b);
    ChainUnlink(next, chains[b], i);
    ChainFrame(mid, next', Without(chains[b], i));
    forall c | 0 <= c < 12 && c != b
      ensures BucketOk(next', size, heads[c], chains[c], c)
    {
      assert BucketOk(next, size, heads[c], chains[c], c);
      ChainFrame(next, next', chains[c]);
    }
  }

  class FreeList {
    const memory: ChunkMemory
    const buckets: array<nat>
    /** The chunks of each bucket. */
    ghost var chains: seq<seq<nat>>

    ghost predicate Valid()
      reads this, buckets, memory
    {
      BucketsOk(memory.next, memory.size, buckets[..], chains)
    }

    ghost function Chunks(): set<nat>
      reads this
    {
      All(chains)
    }

    constructor (memory: ChunkMemory)
      ensures Valid() && this.memory == memory && Chunks() == {} && fresh(buckets)
    {
      this.memory := memory;
      buckets := new nat[12](_ => 0);
      chains := seq(12, _ => []);
    }

    /** File a chunk. Memory too small for a chunk is left as filler. */
    method AddChunk(start: nat, bytes: nat)
      requires Valid() && start != 0 && start !in Chunks() && bytes < 0x8000_0000_0000_0000
      modifies this, buckets, memory
      ensures Valid()
      ensures Chunks() == if bytes < MIN_CHUNK then old(Chunks()) else old(Chunks()) + {start}
      ensures memory.size == if bytes < MIN_CHUNK then old(memory.size) else old(memory.size)[start := bytes]
    {
      hide BucketOk, Log2, All;
      if bytes < MIN_CHUNK {
        return;
      }
      var h := HighestBit(bytes);
      var bucket := h - 1;
      if bucket >= 12 {
        bucket := 11;
      }
      assert bucket == ChunkBucket(bytes);
      ghost var heads := buckets[..];
      Pushed(memory.next, memory.size, heads, chains, bucket, start, bytes);
      AllPush(chains, bucket, start);
      memory.size := memory.size[start := bytes];
      memory.next := memory.next[start := buckets[bucket]];
      buckets[bucket] := start;
      chains := chains[bucket := [start] + chains[bucket]];
      assert buckets[..] == heads[bucket := start];
    }

    /** Take the i-th chunk out of a chain. */
    ghost predicate IsAt(b: nat, i: nat, r: nat)
      reads this
    {
      b < |chains| && i < |chains[b]| && chains[b][i] == r
    }

    /** Hand out a chunk that is large enough; fails only when there is none. */
    method GetChunk(min: nat) returns (r: nat)
      requires Valid() && 2 <= min < 0x8000_0000_0000_0000
      modifies this, buckets, memory
      ensures Valid() && memory.size == old(memory.size)
      ensures r == 0 ==>
                Chunks() == old(Chunks()) && forall x :: x in Chunks() ==> x in memory.size && memory.size[x] < min
      ensures r != 0 ==>
                r in old(Chunks()) && Chunks() == old(Chunks()) - {r} && r in memory.size && min <= memory.size[r]
      ensures r != 0 ==> InHighestBucket(memory.size, old(Chunks()), r)
    {
      hide BucketOk, Log2, All, InHighestBucket;
      var smallest := HighestBit(min);
      Log2AtLeast1(min);
      var i := 11;
      while i >= smallest
        invariant -1 <= i <= 11 && unchanged(this, memory, buckets)
        invariant forall b :: i < b < 12 && smallest <= b ==> chains[b] == []
      {
        r := buckets[i];
        HeadChunk(memory.next, memory.size, buckets[..], chains, i, min);
        if r != 0 {
          Highest(memory.next, memory.size, buckets[..], chains, i, 0);
          TakeAt(i, 0, 0, r);
          return;
        }
        i := i - 1;
      }
      if smallest > 12 {
        smallest := 12;
      }
      var b := smallest - 1;
      var previous, current := 0, buckets[b];
      ghost var k := 0;
      HeadChunk(memory.next, memory.size, buckets[..], chains, b, 2);
      while current != 0
        invariant unchanged(this, memory, buckets)
        invariant k <= |chains[b]| && 0 !in chains[b] && current == (if k < |chains[b]| then chains[b][k] else 0)
        invariant previous == Before(chains[b], k)
        invariant forall j :: 0 <= j < k ==> chains[b][j] in memory.size && memory.size[chains[b][j]] < min
        decreases |chains[b]| - k
      {
        ChunkAt(memory.next, memory.size, buckets[..], chains, b, k);
        if memory.size[current] >= min {
          r := current;
          Highest(memory.next, memory.size, buckets[..], chains, b, k);
          TakeAt(b, k, previous, r);
          return;
        }
        previous := current;
        current := memory.next[current];
        k := k + 1;
      }
      NoneLarge(memory.next, memory.size, buckets[..], chains, min, b, k);
      r := 0;
    }

    /** Take over all chunks of another list in the same memory. */
    method Merge(other: FreeList)
      requires Valid() && other.Valid() && other.memory == memory && other.buckets != buckets && other != this
      requires Chunks() !! other.Chunks()
      modifies this, buckets, memory
      ensures Valid() && memory.size == old(memory.size) && Chunks() == old(Chunks()) + other.Chunks()
    {
      hide BucketOk, All;
      ghost var others, mine, heads := other.chains, Chunks(), other.buckets[..];
      assert others[..0] == [];
      BucketsSized(memory.next, memory.size, heads, others);
      for i := 0 to 12
        invariant BucketsOk(memory.next, memory.size, buckets[..], chains) && memory.size == old(memory.size)
        invariant other.chains == others && other.buckets[..] == heads
        invariant Remaining(memory.next, memory.size, heads, others, i)
        invariant All(chains) == mine + All(others[..i])
        invariant mine == old(Chunks()) && mine !! All(others) && AllSized(memory.size, others)
      {
        var chunk := other.buckets[i];
        ghost var q, mineHeads := others[i], buckets[..];
        AllPrefix(others, i);
        OtherChain(memory.next, memory.size, heads, others, i);
        if chunk != 0 {
          var last := LastChunk(chunk, q);
          NotYetMerged(memory.size, others, i);
          Joined(memory.next, memory.size, mineHeads, chains, i, q);
          AllJoin(chains, i, q);
          StillRemaining(memory.next, memory.size, heads, others, i, last, buckets[i]);
          memory.next := memory.next[last := buckets[i]];
          buckets[i] := chunk;
          chains := chains[i := q + chains[i]];
          assert buckets[..] == mineHeads[i := q[0]];
        }
      }
      assert others[..12] == others;
    }

    method LastChunk(chunk: nat, ghost q: seq<nat>) returns (last: nat)
      requires Chained(memory.next, q) && q != [] && chunk == q[0]
      ensures last == q[|q| - 1]
    {
      last := chunk;
      ghost var k := 0;
      assert LinkedAt(memory.next, q, 0);
      while memory.next[last] != 0
        invariant k < |q| && last == q[k] && last in memory.next && memory.next[last] == After(q, k)
        decreases |q| - k
      {
        last := memory.next[last];
        k := k + 1;
        assert LinkedAt(memory.next, q, k);
      }
    }

    /** Unlink the chunk at position k of a chain, given its predecessor. */
    method TakeAt(b: nat, ghost k: nat, previous: nat, r: nat)
      requires Valid() && IsAt(b, k, r) && previous == Before(chains[b], k)
      modifies this, buckets, memory
      ensures Valid() && memory.size == old(memory.size) && r in old(Chunks()) && Chunks() == old(Chunks()) - {r}
    {
      hide BucketOk, All;
      ghost var heads := buckets[..];
      Removed(memory.next, memory.size, heads, chains, b, k);
      AllRemove(memory.next, memory.size, heads, chains, b, k);
      InAll(chains, b, k);
      PredecessorZero(memory.next, memory.size, heads, chains, b, k);
      if previous != 0 {
        memory.next := memory.next[previous := memory.next[r]];
      } else {
        buckets[b] := memory.next[r];
      }
      memory.next := memory.next[r := 0];
      chains := chains[b := Without(chains[b], k)];
      assert buckets[..] == if k == 0 then heads[b := After(old(chains)[b], k)] else heads;
    }
  }

  // ----- merging -----

  /** The chain of another list is put in front of the chain of the same bucket. */
  lemma Joined(next: map<nat, nat>, size: map<nat, nat>, heads: seq<nat>, chains: seq<seq<nat>>, b: nat, q: seq<nat>)
    requires BucketsOk(next, size, heads, chains) && b < 12 && BucketOk(next, size, Head(q), q, b) && q != []
    requires forall x :: x in q ==> x !in All(chains)
    ensures BucketsOk(next[q[|q| - 1] := heads[b]], size, heads[b := q[0]], chains[b := q + chains[b]])
  {
    hide ChunkBucket;
    var next' := next[q[|q| - 1] := heads[b]];
    assert forall c, x :: 0 <= c < 12 && x in chains[c] ==> x in All(chains);
    assert BucketOk(next, size, heads[b], chains[b], b);
    ChainAppend(next, q, chains[b]);
    forall c | 0 <= c < 12 && c != b
      ensures BucketOk(next', size, heads[c], chains[c], c)
    {
      assert BucketOk(next, size, heads[c], chains[c], c);
      ChainFrame(next, next', chains[c]);
    }
  }

  lemma AllJoin(chains: seq<seq<nat>>, b: nat, q: seq<nat>)
    requires b < |chains|
    ensures All(chains[b := q + chains[b]]) == All(chains) + (set x | x in q)
  {
    var chains' := chains[b := q + chains[b]];
    forall x | x in All(chains) + (set y | y in q)
      ensures x in All(chains')
    {
      if x in q {
        assert x in chains'[b];
      } else {
        var c :| 0 <= c < |chains| && x in chains[c];
        assert x in chains'[c];
      }
    }
  }

  /** Buckets from i on of the other list are still intact. */
  ghost predicate Remaining(next: map<nat, nat>, size: map<nat, nat>, heads: seq<nat>, others: seq<seq<nat>>, i: nat) {
    && |heads| == |others| == 12
    && forall b {:trigger others[b]} :: i <= b < 12 ==> BucketOk(next, size, heads[b], others[b], b)
  }

  lemma StillRemaining(next: map<nat, nat>, size: map<nat, nat>, heads: seq<nat>, others: seq<seq<nat>>, i: nat,
                       last: nat, target: nat)
    requires Remaining(next, size, heads, others, i) && i < 12 && last in others[i]
    ensures Remaining(next[last := target], size, heads, others, i + 1)
  {
    hide ChunkBucket;
    assert BucketOk(next, size, heads[i], others[i], i);
    forall b | i < b < 12
      ensures BucketOk(next[last := target], size, heads[b], others[b], b)
    {
      assert BucketOk(next, size, heads[b], others[b], b);
      ChainFrame(next, next[last := target], others[b]);
    }
  }

  ghost predicate AllSized(size: map<nat, nat>, chains: seq<seq<nat>>) {
    |chains| == 12 && forall b {:trigger chains[b]} :: 0 <= b < 12 ==> Sized(size, chains[b], b)
  }

  lemma BucketsSized(next: map<nat, nat>, size: map<nat, nat>, heads: seq<nat>, chains: seq<seq<nat>>)
    requires BucketsOk(next, size, heads, chains)
    ensures AllSized(size, chains) && Remaining(next, size, heads, chains, 0)
  {
  }

  lemma OtherChain(next: map<nat, nat>, size: map<nat, nat>, heads: seq<nat>, others: seq<seq<nat>>, i: nat)
    requires Remaining(next, size, heads, others, i) && i < 12
    ensures BucketOk(next, size, heads[i], others[i], i) && Chained(next, others[i]) && heads[i] == Head(others[i])
    ensures heads[i] == 0 <==> others[i] == []
    ensures Remaining(next, size, heads, others, i + 1)
  {
    hide ChunkBucket;
    assert BucketOk(next, size, heads[i], others[i], i);
  }

  lemma NotYetMerged(size: map<nat, nat>, others: seq<seq<nat>>, i: nat)
    requires AllSized(size, others) && i < 12
    ensures forall x :: x in others[i] ==> x in All(others) && x !in All(others[..i])
  {
    hide ChunkBucket;
    forall x | x in others[i]
      ensures x in All(others) && x !in All(others[..i])
    {
      assert Sized(size, others[i], i);
      forall b | 0 <= b < i
        ensures x !in others[..i][b]
      {
        assert Sized(size, others[b], b);
      }
    }
  }

  lemma AllPrefix(chains: seq<seq<nat>>, i: nat)
    requires i < |chains|
    ensures All(chains[..i + 1]) == All(chains[..i]) + (set x | x in chains[i])
  {
    var p, q := chains[..i], chains[..i + 1];
    forall x
      ensures x in All(q) <==> x in All(p) || x in chains[i]
    {
      if x in All(q) {
        var b :| 0 <= b < |q| && x in q[b];
        if b < i { assert x in p[b]; }
      }
      if x in All(p) {
        var b :| 0 <= b < |p| && x in p[b];
        assert x in q[b];
      }
      if x in chains[i] { assert x in q[i]; }
    }
  }

  lemma InAll(chains: seq<seq<nat>>, b: nat, k: nat)
    requires b < |chains| && k < |chains[b]|
    ensures chains[b][k] in All(chains)
  {
    assert chains[b][k] in chains[b];
  }

  lemma PredecessorZero(next: map<nat, nat>, size: map<nat, nat>, heads: seq<nat>, chains: seq<seq<nat>>, b: nat,
                        k: nat)
    requires BucketsOk(next, size, heads, chains) && b < 12 && k < |chains[b]|
    ensures Before(chains[b], k) == 0 <==> k == 0
    ensures k > 0 ==> chains[b][k - 1] != chains[b][k]
  {
    assert BucketOk(next, size, heads[b], chains[b], b);
    if k > 0 { assert chains[b][k - 1] in chains[b]; }
  }

  lemma HeadChunk(next: map<nat, nat>, size: map<nat, nat>, heads: seq<nat>, chains: seq<seq<nat>>, b: nat, min: nat)
    requires BucketsOk(next, size, heads, chains) && b < 12 && 2 <= min
    ensures heads[b] == Head(chains[b]) && 0 !in chains[b] && (heads[b] == 0 <==> chains[b] == [])
    ensures heads[b] != 0 && Log2(min) <= b ==> heads[b] in size && min <= size[heads[b]]
  {
    assert BucketOk(next, size, heads[b], chains[b], b);
    if heads[b] != 0 { BucketsBySize(min, size[heads[b]]); }
    hide ChunkBucket, Log2;
  }

  lemma ChunkAt(next: map<nat, nat>, size: map<nat, nat>, heads: seq<nat>, chains: seq<seq<nat>>, b: nat, k: nat)
    requires BucketsOk(next, size, heads, chains) && b < 12 && k < |chains[b]|
    ensures chains[b][k] in size && chains[b][k] in next && next[chains[b][k]] == After(chains[b], k)
  {
    assert BucketOk(next, size, heads[b], chains[b], b);
    assert LinkedAt(next, chains[b], k);
  }

  /** No chunk of the set belongs into a higher bucket than r. */
  ghost predicate InHighestBucket(size: map<nat, nat>, chunks: set<nat>, r: nat) {
    forall x :: x in chunks ==>
      x in size && r in size && 2 <= size[x] && 2 <= size[r] && ChunkBucket(size[x]) <= ChunkBucket(size[r])
  }

  lemma Highest(next: map<nat, nat>, size: map<nat, nat>, heads: seq<nat>, chains: seq<seq<nat>>, b: nat, k: nat)
    requires BucketsOk(next, size, heads, chains) && b < 12 && k < |chains[b]|
    requires forall c :: b < c < 12 ==> chains[c] == []
    ensures InHighestBucket(size, All(chains), chains[b][k])
  {
    hide ChunkBucket, Chained;
    assert BucketOk(next, size, heads[b], chains[b], b) && chains[b][k] in chains[b];
    forall x | x in All(chains)
      ensures x in size && 2 <= size[x] && ChunkBucket(size[x]) <= b
    {
      var c :| 0 <= c < 12 && x in chains[c];
      assert BucketOk(next, size, heads[c], chains[c], c);
    }
  }

  /** When the larger buckets are empty and one bucket has been searched, every chunk is too small. */
  lemma NoneLarge(next: map<nat, nat>, size: map<nat, nat>, heads: seq<nat>, chains: seq<seq<nat>>, min: nat, b: nat,
                  k: nat)
    requires BucketsOk(next, size, heads, chains) && 2 <= min && b == (if Log2(min) > 12 then 11 else Log2(min) - 1)
    requires forall c :: 0 <= c < 12 && Log2(min) <= c ==> chains[c] == []
    requires k == |chains[b]| && forall j :: 0 <= j < k ==> chains[b][j] in size && size[chains[b][j]] < min
    ensures forall x :: x in All(chains) ==> x in size && size[x] < min
  {
    hide Log2;
    forall x | x in All(chains)
      ensures x in size && size[x] < min
    {
      var c :| 0 <= c < 12 && x in chains[c];
      assert BucketOk(next, size, heads[c], chains[c], c);
      BucketsBySize(min, size[x]);
    }
  }
}
