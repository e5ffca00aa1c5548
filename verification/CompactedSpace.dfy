/** The space that compaction leaves behind: the moved objects followed by free memory in every chunk. */
module CompactedSpace {
  import opened GcHeap
  import opened Plan
  import opened PlanTheorems
  import opened PlanSteps
  import opened Compaction

  /** Where a live object has been put, as an address. */
  ghost function NewAddress(marks: seq<bv32>, table: seq<int>, a: nat): nat {
    if Dest(marks, table, a) < 0 then 0 else Dest(marks, table, a)
  }

  ghost function NewLive(s: Space, marks: seq<bv32>, table: seq<int>): set<nat> {
    set a | a in s.live :: NewAddress(marks, table, a)
  }

  /** Free memory of at least three words is one free-list chunk; smaller gaps become one-word fillers. */
  ghost predicate FreeStart(top: int, end: int, w: int) {
    top <= w < end && (3 <= end - top ==> w == top)
  }

  ghost function FreeStarts(s: Space, tops: seq<int>): set<nat>
    requires |tops| == |s.chunks|
  {
    set w: nat | w < |s.mem| && IsFreeStart(s, tops, w)
  }

  ghost predicate IsFreeStart(s: Space, tops: seq<int>, w: nat)
    requires |tops| == |s.chunks|
  {
    exists c :: 0 <= c < |s.chunks| && FreeStart(tops[c], s.chunks[c].UsableEnd(), w)
  }

  /** The word that marks free memory from `top` to `end` as free at position w. */
  function FreeWord(top: int, end: int): Word
    requires top < end
  {
    if 3 <= end - top then Header(end - top) else Header(1)
  }

  /** The ends of the chunks have been turned into free memory; the objects below the tops are untouched. */
  ghost predicate EndsFreed(s: Space, tops: seq<int>, mem: seq<Word>, mem': seq<Word>) {
    && |tops| == |s.chunks| && |mem'| == |mem| == |s.mem|
    && (forall c, w :: 0 <= c < |s.chunks| && 0 <= w < |mem| && FreeStart(tops[c], s.chunks[c].UsableEnd(), w) ==>
          mem'[w] == FreeWord(tops[c], s.chunks[c].UsableEnd()))
    && (forall w ::
          0 <= w < |mem| && (forall c :: 0 <= c < |s.chunks| ==> !FreeStart(tops[c], s.chunks[c].UsableEnd(), w)) ==>
            mem'[w] == mem[w])
  }

  ghost function NewSpace(s: Space, marks: seq<bv32>, table: seq<int>, tops: seq<int>, mem': seq<Word>): Space
    requires |tops| == |s.chunks|
  {
    Space(mem', s.chunks, NewLive(s, marks, table) + FreeStarts(s, tops), NewLive(s, marks, table))
  }

  /** The first live object in [lo, hi), if any. */
  lemma {:induction false} FirstLive(s: Space, lo: nat, hi: nat) returns (found: bool, b: nat)
    requires lo <= hi <= |s.mem|
    ensures found ==> lo <= b < hi && b in s.live && s.LiveWords(lo, b) == 0
    ensures !found ==> s.LiveWords(lo, hi) == 0
    decreases hi - lo
  {
    if lo == hi {
      found, b := false, lo;
    } else if lo in s.live {
      found, b := true, lo;
    } else {
      found, b := FirstLive(s, lo + 1, hi);
      LiveWordsObject(s, lo, lo + 1);
      if found { LiveWordsSplit(s, lo, lo + 1, b); } else { LiveWordsSplit(s, lo, lo + 1, hi); }
    }
  }

  /** A moved object is followed by the next moved object of its chunk, or by the top. */
  lemma FollowedBy(s: Space, marks: seq<bv32>, table: seq<int>, tops: seq<int>, cut: seq<nat>, a: nat, h: nat)
    requires s.Valid() && FinalPlan(s, s.chunks, marks, table, tops, cut) && a in s.live && a < |s.mem|
    requires h < |s.chunks| && cut[h] <= a < cut[h + 1] <= |s.mem|
    ensures Dest(marks, table, a) + s.Size(a) == tops[h]
         || exists b :: b in s.live && Dest(marks, table, b) == Dest(marks, table, a) + s.Size(a)
  {
    hide Dest, Space.Valid;
    assert PackedChunk(s, marks, table, tops[h], s.chunks[h], cut[h], cut[h + 1]);
    var found, b := FirstLive(s, a + 1, cut[h + 1]);
    var n := if found then b else cut[h + 1];
    LiveWordsSplit(s, cut[h], a, n);
    LiveWordsSplit(s, a, a + 1, n);
    LiveWordsObject(s, a, a + 1);
  }

  /** A chunk that receives objects has one at its start. */
  lemma ChunkBegins(s: Space, marks: seq<bv32>, table: seq<int>, tops: seq<int>, cut: seq<nat>, h: nat)
    requires FinalPlan(s, s.chunks, marks, table, tops, cut) && h < |s.chunks|
    ensures tops[h] == s.chunks[h].start || exists b :: b in s.live && Dest(marks, table, b) == s.chunks[h].start
  {
    hide Dest;
    assert PackedChunk(s, marks, table, tops[h], s.chunks[h], cut[h], cut[h + 1]);
    assert cut[h] <= cut[h + 1];
    var found, b := FirstLive(s, cut[h], cut[h + 1]);
  }

  /** The facts that make a compacted space valid. */
  ghost predicate Compacted(s: Space, marks: seq<bv32>, table: seq<int>, tops: seq<int>, cut: seq<nat>, mem: seq<Word>,
                            mem': seq<Word>)
  {
    && s.Valid() && FinalPlan(s, s.chunks, marks, table, tops, cut)
    && |tops| == |s.chunks| && |cut| == |s.chunks| + 1
    && |mem'| == |mem| == |s.mem| && SentinelsKept(s, mem)
    && (forall a :: a in s.live ==> a < |s.mem| && 0 < s.Size(a) && s.mem[a].Header? && Copied(s, marks, table, mem, a))
    && EndsFreed(s, tops, mem, mem')
  }

  /** Chunks do not overlap: an address belongs to one chunk only. */
  lemma OneChunk(s: Space, c: nat, d: nat, w: int)
    requires s.ChunksOk() && c < |s.chunks| && d < |s.chunks|
    requires s.chunks[c].start <= w < s.chunks[c].end && s.chunks[d].start <= w < s.chunks[d].end
    ensures c == d
  {
  }

  lemma TopInChunk(s: Space, marks: seq<bv32>, table: seq<int>, tops: seq<int>, cut: seq<nat>, c: nat)
    requires FinalPlan(s, s.chunks, marks, table, tops, cut) && c < |s.chunks|
    ensures s.chunks[c].start <= tops[c] <= s.chunks[c].UsableEnd()
  {
    hide Dest;
    assert PackedChunk(s, marks, table, tops[c], s.chunks[c], cut[c], cut[c + 1]);
  }

  /** Below the top of a chunk no word is a free start. */
  lemma NotFree(s: Space, marks: seq<bv32>, table: seq<int>, tops: seq<int>, cut: seq<nat>, h: nat, w: int, c: nat)
    requires s.ChunksOk() && FinalPlan(s, s.chunks, marks, table, tops, cut) && h < |s.chunks| && c < |s.chunks|
    requires s.chunks[h].start <= w < tops[h]
    ensures !FreeStart(tops[c], s.chunks[c].UsableEnd(), w)
  {
    assert |tops| == |s.chunks|;
    hide FinalPlan;
    TopInChunk(s, marks, table, tops, cut, h);
    TopInChunk(s, marks, table, tops, cut, c);
    if FreeStart(tops[c], s.chunks[c].UsableEnd(), w) {
      OneChunk(s, c, h, w);
    }
  }

  /** A moved object keeps its size and lies below the top of one chunk. */
  lemma MovedObject(s: Space, marks: seq<bv32>, table: seq<int>, tops: seq<int>, cut: seq<nat>, mem: seq<Word>,
                    mem': seq<Word>, a: nat)
    returns (h: nat)
    requires Compacted(s, marks, table, tops, cut, mem, mem') && a in s.live
    ensures h < |s.chunks| && a < |s.mem| && cut[h] <= a < cut[h + 1] <= |s.mem|
    ensures s.chunks[h].start <= Dest(marks, table, a) == NewAddress(marks, table, a)
    ensures Dest(marks, table, a) + s.Size(a) <= tops[h] <= s.chunks[h].UsableEnd()
    ensures NewAddress(marks, table, a) < |mem'| && mem'[NewAddress(marks, table, a)] == Header(s.Size(a))
  {
    hide Dest, Space.LiveWords, Space.Tiled;
    h := PlacedInOneChunk(s, s.chunks, marks, table, tops, cut, a);
    assert PackedChunk(s, marks, table, tops[h], s.chunks[h], cut[h], cut[h + 1]);
    var x := NewAddress(marks, table, a);
    forall c | 0 <= c < |s.chunks|
      ensures !FreeStart(tops[c], s.chunks[c].UsableEnd(), x)
    {
      NotFree(s, marks, table, tops, cut, h, x, c);
    }
    assert WordCopied(s, marks, table, mem, a, a);
  }

  /** Two moved objects do not overlap. */
  lemma MovedApart(s: Space, marks: seq<bv32>, table: seq<int>, tops: seq<int>, cut: seq<nat>, a: nat, b: nat)
    requires s.Valid() && FinalPlan(s, s.chunks, marks, table, tops, cut) && a in s.live && b in s.live && a < |s.mem|
    requires b < |s.mem| && 0 < s.Size(b)
    ensures !(Dest(marks, table, a) < Dest(marks, table, b) < Dest(marks, table, a) + s.Size(a))
  {
    hide Dest, FinalPlan, Space.Valid;
    if a < b { DestinationsInOrder(s, s.chunks, marks, table, tops, cut, a, b); }
    if b < a { DestinationsInOrder(s, s.chunks, marks, table, tops, cut, b, a); }
  }

  /** Where a start of the compacted space in chunk c comes from. */
  lemma StartInChunk(s: Space, marks: seq<bv32>, table: seq<int>, tops: seq<int>, cut: seq<nat>, mem: seq<Word>,
                     mem': seq<Word>, c: nat, x: nat)
    returns (a: nat)
    requires Compacted(s, marks, table, tops, cut, mem, mem') && c < |s.chunks|
    requires x in NewSpace(s, marks, table, tops, mem').objs && s.chunks[c].start <= x < s.chunks[c].end
    ensures FreeStart(tops[c], s.chunks[c].UsableEnd(), x)
         || (a in s.live && x == NewAddress(marks, table, a) && x < tops[c] <= s.chunks[c].UsableEnd())
  {
    hide Dest, FinalPlan, Space.LiveWords, Space.Tiled, EndsFreed, FreeStart;
    a := 0;
    if x in NewLive(s, marks, table) {
      a :| a in s.live && x == NewAddress(marks, table, a);
      var h := MovedObject(s, marks, table, tops, cut, mem, mem', a);
      OneChunk(s, c, h, x);
    } else {
      FreeInChunk(s, marks, table, tops, cut, c, x);
    }
  }

  lemma FreeInChunk(s: Space, marks: seq<bv32>, table: seq<int>, tops: seq<int>, cut: seq<nat>, c: nat, x: nat)
    requires s.ChunksOk() && FinalPlan(s, s.chunks, marks, table, tops, cut) && c < |s.chunks|
    requires x in FreeStarts(s, tops) && s.chunks[c].start <= x < s.chunks[c].end
    ensures FreeStart(tops[c], s.chunks[c].UsableEnd(), x)
  {
    var d :| 0 <= d < |s.chunks| && FreeStart(tops[d], s.chunks[d].UsableEnd(), x);
    TopInChunk(s, marks, table, tops, cut, d);
    OneChunk(s, c, d, x);
  }

  lemma FreeStartIsObject(s: Space, marks: seq<bv32>, table: seq<int>, tops: seq<int>, mem': seq<Word>, c: nat, x: nat)
    requires |tops| == |s.chunks| && c < |s.chunks| && x < |s.mem| && FreeStart(tops[c], s.chunks[c].UsableEnd(), x)
    ensures x in NewSpace(s, marks, table, tops, mem').objs
  {
    assert IsFreeStart(s, tops, x);
  }

  /** The object at the top of a chunk, or the sentinel. */
  lemma TopIsBoundary(s: Space, marks: seq<bv32>, table: seq<int>, tops: seq<int>, cut: seq<nat>, mem': seq<Word>,
                      c: nat)
    requires s.ChunksOk() && FinalPlan(s, s.chunks, marks, table, tops, cut) && c < |s.chunks|
    ensures 0 <= tops[c] && NewSpace(s, marks, table, tops, mem').Boundary(s.chunks[c], tops[c])
  {
    TopInChunk(s, marks, table, tops, cut, c);
    hide FinalPlan;
    if tops[c] < s.chunks[c].UsableEnd() {
      FreeStartIsObject(s, marks, table, tops, mem', c, tops[c]);
    }
  }

  lemma MovedObjectOk(s: Space, marks: seq<bv32>, table: seq<int>, tops: seq<int>, cut: seq<nat>, mem: seq<Word>,
                      mem': seq<Word>, c: nat, a: nat)
    requires Compacted(s, marks, table, tops, cut, mem, mem') && c < |s.chunks| && a in s.live
    requires s.chunks[c].start <= NewAddress(marks, table, a) < s.chunks[c].end
    ensures s.chunks[c].end <= |mem'|
    ensures NewSpace(s, marks, table, tops, mem').ObjectOk(s.chunks[c], NewAddress(marks, table, a))
  {
    hide Dest, FinalPlan, Space.LiveWords, Space.Tiled, EndsFreed, FreeStart, Copied;
    var n := NewSpace(s, marks, table, tops, mem');
    var x := NewAddress(marks, table, a);
    var h := MovedObject(s, marks, table, tops, cut, mem, mem', a);
    OneChunk(s, c, h, x);
    MovedFollowed(s, marks, table, tops, cut, mem, mem', c, a);
    forall w | x < w < x + s.Size(a)
      ensures w !in n.objs
    {
      if w in n.objs {
        var b := StartInChunk(s, marks, table, tops, cut, mem, mem', c, w);
        NotFree(s, marks, table, tops, cut, c, w, c);
        var hb := MovedObject(s, marks, table, tops, cut, mem, mem', b);
        MovedApart(s, marks, table, tops, cut, a, b);
      }
    }
  }

  lemma MovedFollowed(s: Space, marks: seq<bv32>, table: seq<int>, tops: seq<int>, cut: seq<nat>, mem: seq<Word>,
                      mem': seq<Word>, c: nat, a: nat)
    requires Compacted(s, marks, table, tops, cut, mem, mem') && c < |s.chunks| && a in s.live && a < |s.mem|
    requires cut[c] <= a < cut[c + 1] <= |s.mem| && 0 <= Dest(marks, table, a)
    ensures NewSpace(s, marks, table, tops, mem').Boundary(s.chunks[c], NewAddress(marks, table, a) + s.Size(a))
  {
    hide Dest, FinalPlan, Space.LiveWords, Space.Tiled, EndsFreed, Copied;
    FollowedBy(s, marks, table, tops, cut, a, c);
    TopIsBoundary(s, marks, table, tops, cut, mem', c);
    if Dest(marks, table, a) + s.Size(a) != tops[c] {
      var b :| b in s.live && Dest(marks, table, b) == Dest(marks, table, a) + s.Size(a);
      assert NewAddress(marks, table, b) in NewLive(s, marks, table);
    }
  }

  lemma FreeWordAt(s: Space, tops: seq<int>, mem: seq<Word>, mem': seq<Word>, c: nat, x: nat)
    requires EndsFreed(s, tops, mem, mem') && c < |s.chunks| && x < |mem|
    requires FreeStart(tops[c], s.chunks[c].UsableEnd(), x)
    ensures mem'[x] == FreeWord(tops[c], s.chunks[c].UsableEnd())
  {
  }

  lemma FreeObjectOk(s: Space, marks: seq<bv32>, table: seq<int>, tops: seq<int>, cut: seq<nat>, mem: seq<Word>,
                     mem': seq<Word>, c: nat, x: nat)
    requires Compacted(s, marks, table, tops, cut, mem, mem') && c < |s.chunks|
    requires FreeStart(tops[c], s.chunks[c].UsableEnd(), x) && s.chunks[c].start <= x
    ensures s.chunks[c].end <= |mem'| && NewSpace(s, marks, table, tops, mem').ObjectOk(s.chunks[c], x)
  {
    hide Dest, FinalPlan, Space.LiveWords, Space.Tiled, Copied, EndsFreed, NewLive, FreeStarts;
    var n := NewSpace(s, marks, table, tops, mem');
    var e := s.chunks[c].UsableEnd();
    FreeWordAt(s, tops, mem, mem', c, x);
    if x + mem'[x].size < e {
      FreeStartIsObject(s, marks, table, tops, mem', c, x + 1);
    }
    forall w | x < w < x + mem'[x].size
      ensures w !in n.objs
    {
      if w in n.objs {
        var b := StartInChunk(s, marks, table, tops, cut, mem, mem', c, w);
      }
    }
  }

  /** After compaction every chunk is again tiled by objects up to its sentinel. */
  lemma CompactedTiled(s: Space, marks: seq<bv32>, table: seq<int>, tops: seq<int>, cut: seq<nat>, mem: seq<Word>,
                       mem': seq<Word>, c: nat)
    requires Compacted(s, marks, table, tops, cut, mem, mem') && c < |s.chunks|
    ensures NewSpace(s, marks, table, tops, mem').Tiled(s.chunks[c])
  {
    hide Dest, FinalPlan, Space.LiveWords, Space.Tiled, Copied, FreeStart, Space.ObjectOk;
    var n := NewSpace(s, marks, table, tops, mem');
    var ch := s.chunks[c];
    forall x | x in n.objs && ch.start <= x < ch.end
      ensures n.ObjectOk(ch, x) && x != ch.UsableEnd()
    {
      var a := StartInChunk(s, marks, table, tops, cut, mem, mem', c, x);
      FreeBelowEnd(tops[c], ch.UsableEnd(), x);
      if FreeStart(tops[c], ch.UsableEnd(), x) {
        FreeObjectOk(s, marks, table, tops, cut, mem, mem', c, x);
      } else {
        MovedObjectOk(s, marks, table, tops, cut, mem, mem', c, a);
      }
    }
    ChunkStartIsObject(s, marks, table, tops, cut, mem', c);
    SentinelStays(s, marks, table, tops, cut, mem, mem', c);
    TiledFrom(n, ch);
  }

  lemma TiledFrom(n: Space, ch: Chunk)
    requires ch.start < ch.end <= |n.mem|
    requires (ch.start in n.objs || ch.start == ch.UsableEnd()) && n.mem[ch.UsableEnd()] == Sentinel
    requires forall x :: x in n.objs && ch.start <= x < ch.end ==> n.ObjectOk(ch, x) && x != ch.UsableEnd()
    ensures n.Tiled(ch)
  {
  }

  lemma FreeBelowEnd(top: int, end: int, w: int)
    ensures FreeStart(top, end, w) ==> w < end
  {
  }

  lemma ChunkStartIsObject(s: Space, marks: seq<bv32>, table: seq<int>, tops: seq<int>, cut: seq<nat>, mem': seq<Word>,
                           c: nat)
    requires s.ChunksOk() && FinalPlan(s, s.chunks, marks, table, tops, cut) && c < |s.chunks|
    ensures NewSpace(s, marks, table, tops, mem').Boundary(s.chunks[c], s.chunks[c].start)
  {
    ChunkBegins(s, marks, table, tops, cut, c);
    TopIsBoundary(s, marks, table, tops, cut, mem', c);
    hide Dest, FinalPlan;
    if tops[c] != s.chunks[c].start {
      var b :| b in s.live && Dest(marks, table, b) == s.chunks[c].start;
      assert NewAddress(marks, table, b) in NewLive(s, marks, table);
    }
  }

  lemma SentinelStays(s: Space, marks: seq<bv32>, table: seq<int>, tops: seq<int>, cut: seq<nat>, mem: seq<Word>,
                      mem': seq<Word>, c: nat)
    requires Compacted(s, marks, table, tops, cut, mem, mem') && c < |s.chunks|
    ensures s.chunks[c].start < s.chunks[c].end <= |mem'| && mem'[s.chunks[c].UsableEnd()] == Sentinel
  {
    hide Dest, FinalPlan, Space.LiveWords, Space.Tiled, Copied;
    var e := s.chunks[c].UsableEnd();
    forall d | 0 <= d < |s.chunks|
      ensures !FreeStart(tops[d], s.chunks[d].UsableEnd(), e)
    {
      TopInChunk(s, marks, table, tops, cut, d);
      if s.chunks[d].start <= e < s.chunks[d].end { OneChunk(s, c, d, e); }
    }
  }

  lemma StartInSomeChunk(s: Space, marks: seq<bv32>, table: seq<int>, tops: seq<int>, cut: seq<nat>, mem: seq<Word>,
                         mem': seq<Word>, x: nat)
    requires Compacted(s, marks, table, tops, cut, mem, mem') && x in NewSpace(s, marks, table, tops, mem').objs
    ensures s.InSomeChunk(x)
  {
    hide Dest, FinalPlan, Space.LiveWords, Space.Tiled, Copied, EndsFreed;
    if x in NewLive(s, marks, table) {
      var a :| a in s.live && x == NewAddress(marks, table, a);
      var h := MovedObject(s, marks, table, tops, cut, mem, mem', a);
      assert s.chunks[h].start <= x < s.chunks[h].UsableEnd();
    } else {
      var c :| 0 <= c < |s.chunks| && FreeStart(tops[c], s.chunks[c].UsableEnd(), x);
      TopInChunk(s, marks, table, tops, cut, c);
      assert s.chunks[c].start <= x < s.chunks[c].UsableEnd();
    }
  }

  /** Compaction leaves a valid space, with the moved objects as its live objects. */
  lemma CompactedValid(s: Space, marks: seq<bv32>, table: seq<int>, tops: seq<int>, cut: seq<nat>, mem: seq<Word>,
                       mem': seq<Word>)
    requires Compacted(s, marks, table, tops, cut, mem, mem')
    ensures NewSpace(s, marks, table, tops, mem').Valid()
  {
    hide Dest, FinalPlan, Space.LiveWords, Space.Tiled, Copied, EndsFreed, NewLive, FreeStarts;
    var n := NewSpace(s, marks, table, tops, mem');
    forall c | 0 <= c < |s.chunks|
      ensures n.Tiled(n.chunks[c])
    {
      CompactedTiled(s, marks, table, tops, cut, mem, mem', c);
    }
    forall x | x in n.objs
      ensures n.InSomeChunk(x)
    {
      StartInSomeChunk(s, marks, table, tops, cut, mem, mem', x);
      var c :| 0 <= c < |s.chunks| && s.chunks[c].start <= x < s.chunks[c].UsableEnd();
      assert n.chunks[c].start <= x < n.chunks[c].UsableEnd();
    }
  }

  /** The ends of the first n chunks have been freed. */
  ghost predicate EndsFreedTo(s: Space, tops: seq<int>, mem: seq<Word>, mem': seq<Word>, n: nat) {
    && n <= |tops| == |s.chunks| && |mem'| == |mem| == |s.mem|
    && (forall c, w :: 0 <= c < n && 0 <= w < |mem| && FreeStart(tops[c], s.chunks[c].UsableEnd(), w) ==>
          mem'[w] == FreeWord(tops[c], s.chunks[c].UsableEnd()))
    && (forall w :: 0 <= w < |mem| && (forall c :: 0 <= c < n ==> !FreeStart(tops[c], s.chunks[c].UsableEnd(), w)) ==>
          mem'[w] == mem[w])
  }

  lemma FreeStartsApart(s: Space, tops: seq<int>, c: nat, n: nat, w: int)
    requires s.ChunksOk() && |tops| == |s.chunks| && c < |s.chunks| && n < |s.chunks|
    requires s.chunks[c].start <= tops[c] && s.chunks[n].start <= tops[n]
    requires FreeStart(tops[c], s.chunks[c].UsableEnd(), w)
    ensures c == n || !FreeStart(tops[n], s.chunks[n].UsableEnd(), w)
  {
    if FreeStart(tops[n], s.chunks[n].UsableEnd(), w) {
      OneChunk(s, c, n, w);
    }
  }

  /** Freeing the end of one more chunk. */
  lemma FreeOneMore(s: Space, tops: seq<int>, mem: seq<Word>, mem1: seq<Word>, mem2: seq<Word>, n: nat)
    requires s.ChunksOk() && EndsFreedTo(s, tops, mem, mem1, n) && n < |s.chunks|
    requires forall c :: 0 <= c < |s.chunks| ==> s.chunks[c].start <= tops[c] <= s.chunks[c].UsableEnd()
    requires |mem2| == |mem1|
    requires forall w :: 0 <= w < |mem1| ==>
               mem2[w] == if FreeStart(tops[n], s.chunks[n].UsableEnd(), w) then FreeWord(tops[n],
                   s.chunks[n].UsableEnd()) else mem1[w]
    ensures EndsFreedTo(s, tops, mem, mem2, n + 1)
  {
    hide FreeWord;
    forall c, w | 0 <= c < n + 1 && 0 <= w < |mem| && FreeStart(tops[c], s.chunks[c].UsableEnd(), w)
      ensures mem2[w] == FreeWord(tops[c], s.chunks[c].UsableEnd())
    {
      FreeStartsApart(s, tops, c, n, w);
    }
  }

  /** Freeing the chunk ends leaves the moved objects alone. */
  lemma StillCopied(s: Space, marks: seq<bv32>, table: seq<int>, tops: seq<int>, cut: seq<nat>, mem: seq<Word>,
                    mem': seq<Word>, a: nat)
    requires Compacted(s, marks, table, tops, cut, mem, mem') && a in s.live && a < |s.mem|
    ensures Copied(s, marks, table, mem', a)
  {
    hide Dest, FinalPlan, Space.LiveWords, Space.Tiled, FixWord;
    var h := MovedObject(s, marks, table, tops, cut, mem, mem', a);
    forall w | a <= w < a + s.Size(a)
      ensures WordCopied(s, marks, table, mem', a, w)
    {
      assert WordCopied(s, marks, table, mem, a, w);
      var x := Dest(marks, table, a) + (w - a);
      forall c | 0 <= c < |s.chunks|
        ensures !FreeStart(tops[c], s.chunks[c].UsableEnd(), x)
      {
        NotFree(s, marks, table, tops, cut, h, x, c);
      }
    }
  }

  /** Line l lies wholly above the top of its chunk. */
  ghost predicate FreedCard(s: Space, tops: seq<int>, l: int) {
    exists c :: 0 <= c < |s.chunks| && c < |tops| && tops[c] <= 32 * l < s.chunks[c].end
  }

  /** No object has been put on the cards above the tops of the chunks. */
  lemma PlacedNotFreed(s: Space, marks: seq<bv32>, table: seq<int>, tops: seq<int>, cut: seq<nat>, a: nat)
    requires s.Valid() && FinalPlan(s, s.chunks, marks, table, tops, cut)
    requires a in s.live && a < |s.mem| && 0 < s.Size(a)
    ensures !FreedCard(s, tops, Dest(marks, table, a) / 32)
  {
    hide Dest, Space.Tiled, FinalPlan;
    var h := PlacedInOneChunk(s, s.chunks, marks, table, tops, cut, a);
    var d := Dest(marks, table, a);
    forall c | 0 <= c < |s.chunks| && c < |tops|
      ensures !(tops[c] <= 32 * (d / 32) < s.chunks[c].end)
    {
      TopInChunk(s, marks, table, tops, cut, c);
      if c < h {
        assert s.chunks[c].end <= s.chunks[h].start;
      } else if h < c {
        assert s.chunks[h].end <= s.chunks[c].start;
      }
    }
  }

  /** Forgetting the starts above the tops of the chunks leaves those of the objects that have been put below. */
  lemma FreedStarts(s: Space, marks: seq<bv32>, table: seq<int>, tops: seq<int>, cut: seq<nat>, starts: seq<int>,
                    starts': seq<int>, p: nat)
    requires s.Valid() && FinalPlan(s, s.chunks, marks, table, tops, cut) && StartsPlaced(s, marks, table, starts, p)
    requires forall a :: a in s.live ==> a < |s.mem| && 0 < s.Size(a)
    requires |starts'| == |starts|
    requires forall l :: 0 <= l < |starts| ==>
               starts'[l] == if FreedCard(s, tops, l) then NO_START else starts[l]
    ensures StartsPlaced(s, marks, table, starts', p)
  {
    hide Dest, StartsPlaced, FreedCard, FinalPlan, Space.Valid;
    forall a | a in s.live && a < p
      ensures KeptAt(starts, starts', Dest(marks, table, a))
    {
      PlacedNotFreed(s, marks, table, tops, cut, a);
    }
    ClearedStarts(s, marks, table, starts, starts', p);
  }

  /** The recorded starts name objects of the compacted space. */
  lemma StartsStillOk(s: Space, marks: seq<bv32>, table: seq<int>, tops: seq<int>, cut: seq<nat>, starts: seq<int>,
                      mem': seq<Word>, p: nat, c: nat)
    requires FinalPlan(s, s.chunks, marks, table, tops, cut) && NamesPlaced(s, marks, table, starts, p)
    requires c < |s.chunks| && s.chunks[c].end <= 32 * |starts|
    ensures StartsOk(NewSpace(s, marks, table, tops, mem'), starts, s.chunks[c])
  {
    hide Dest;
    var n := NewSpace(s, marks, table, tops, mem');
    forall l | s.chunks[c].start / 32 <= l < s.chunks[c].end / 32 && starts[l] != NO_START
      ensures 0 <= starts[l] < 32 && 32 * l + starts[l] in n.objs
    {
      assert s.ChunkCard(l);
      var x := 32 * l + starts[l];
      assert x in Placed(s, marks, table, p);
      var a :| a in s.live && a < p && Dest(marks, table, a) == x;
      assert NewAddress(marks, table, a) == x;
      assert NewAddress(marks, table, a) in NewLive(s, marks, table);
    }
  }

  /** What the visitor has done when the last chunk is finished. */
  lemma VisitComplete(s: Space, planned: seq<bv32>, table: seq<int>, tops: seq<int>, cut: seq<nat>,
                      marks: seq<bv32>, starts: seq<int>, mem: seq<Word>, dest: Destination, used: nat, mem': seq<Word>)
    requires 0 < |s.chunks|
    requires Visited(s, planned, table, tops, cut, marks, starts, mem, dest, used, s.chunks[|s.chunks| - 1].end)
    requires EndsFreed(s, tops, mem, mem')
    ensures Compacted(s, planned, table, tops, cut, mem, mem')
    ensures used == s.LiveWords(s.chunks[0].start, s.chunks[|s.chunks| - 1].end)
  {
    hide Dest, EndsFreed, SameObjectMarks, StartsPlaced, Cursor, MarksAgree, Copied;
    assert |mem'| == |s.mem| && |tops| == |s.chunks| by { SameLengths(s, tops, mem, mem'); }
    forall a | a in s.live
      ensures a < s.chunks[|s.chunks| - 1].end && a < |s.mem| && 0 < s.Size(a) && s.mem[a].Header?
    {
      var c := ChunkIndex(s, a);
      assert s.ObjectOk(s.chunks[c], a);
      assert c < |s.chunks| - 1 ==> s.chunks[c].end <= s.chunks[|s.chunks| - 1].start;
    }
  }

  lemma SameLengths(s: Space, tops: seq<int>, mem: seq<Word>, mem': seq<Word>)
    requires EndsFreed(s, tops, mem, mem')
    ensures |mem'| == |mem| == |s.mem| && |tops| == |s.chunks|
  {
  }

  lemma NothingFree(top: int, end: int)
    requires end <= top
    ensures forall w :: !FreeStart(top, end, w)
  {
  }

  lemma PlannedFrom(s: Space, marks: seq<bv32>, table: seq<int>, starts: seq<int>, tops: seq<int>, cut: seq<nat>)
    requires Prepared(s, marks, table, starts, |s.chunks|) && FinalPlan(s, s.chunks, marks, table, tops, cut)
    requires forall a :: a in s.live ==> a < |s.mem| && 2 <= s.Size(a)
    ensures Planned(s, marks, table, tops, cut)
  {
  }

  lemma PlanShape(s: Space, marks: seq<bv32>, table: seq<int>, tops: seq<int>, cut: seq<nat>)
    requires Planned(s, marks, table, tops, cut)
    ensures s.ChunksOk() && |tops| == |s.chunks|
    ensures forall c :: 0 <= c < |s.chunks| ==> s.chunks[c].start <= tops[c] <= s.chunks[c].UsableEnd()
    ensures FinalPlan(s, s.chunks, marks, table, tops, cut)
  {
    forall c | 0 <= c < |s.chunks|
      ensures s.chunks[c].start <= tops[c] <= s.chunks[c].UsableEnd()
    {
      TopInChunk(s, marks, table, tops, cut, c);
    }
  }

  lemma VisitedStarts(s: Space, planned: seq<bv32>, table: seq<int>, tops: seq<int>, cut: seq<nat>,
                      marks: seq<bv32>, starts: seq<int>, mem: seq<Word>, dest: Destination, used: nat, p: nat)
    requires Visited(s, planned, table, tops, cut, marks, starts, mem, dest, used, p)
    ensures StartsPlaced(s, planned, table, starts, p)
  {
  }
}
