/** A finished compaction plan and what follows from it. */
module PlanTheorems {
  import opened GcHeap
  import opened Plan

  /**
   Destination chunk h receives exactly the live objects that start in [cut[h], cut[h + 1]), packed from its start
   to its top, and none from before the source chunk at its position if each chunk has room for that one.
   */
  ghost predicate FinalPlan(s: Space, into: seq<Chunk>, marks: seq<bv32>, table: seq<int>, tops: seq<int>,
                            cut: seq<nat>)
  {
    && 0 < |s.chunks| && 0 < |into| == |tops| && |cut| == |into| + 1
    && cut[0] == s.chunks[0].start && cut[|into|] == s.chunks[|s.chunks| - 1].end <= |s.mem|
    && (forall h, i :: 0 <= h < i < |cut| ==> cut[h] <= cut[i])
    && (forall h {:trigger tops[h]} :: 0 <= h < |into| ==>
          && PackedChunk(s, marks, table, tops[h], into[h], cut[h], cut[h + 1])
          && (Roomy(s, into) ==> NoneFromBefore(s, h, cut[h], cut[h + 1])))
  }

  ghost predicate PackedChunk(s: Space, marks: seq<bv32>, table: seq<int>, top: int, ch: Chunk, lo: nat, hi: nat) {
    && hi <= |s.mem|
    && top == ch.start + s.LiveWords(lo, hi) <= ch.UsableEnd()
    && (forall a {:trigger Dest(marks, table, a)} :: a in s.live && lo <= a < hi ==>
           Dest(marks, table, a) == ch.start + s.LiveWords(lo, a))
  }

  ghost predicate NoneFromBefore(s: Space, h: nat, lo: nat, hi: nat) {
    lo < hi ==> h < |s.chunks| && s.chunks[h].start <= lo
  }

  /** The chunks of a list are in increasing address order. */
  ghost predicate Ascending(into: seq<Chunk>) {
    forall h, i :: 0 <= h < i < |into| ==> into[h].end <= into[i].start
  }

  /** No destination chunk starts above the source chunk at its position. */
  ghost predicate NotAbove(s: Space, into: seq<Chunk>) {
    forall h {:trigger into[h]} :: 0 <= h < |s.chunks| && h < |into| ==> into[h].start <= s.chunks[h].start
  }

  lemma SettledChunk(s: Space, into: seq<Chunk>, marks: seq<bv32>, table: seq<int>, tops: seq<int>, cut: seq<nat>,
                     end: nat, dest: Destination, h: nat)
    requires PlanState(s, into, marks, table, tops, cut, end, dest) && h <= dest.chunk
    ensures PackedChunk(s, marks, table, if h < dest.chunk then tops[h]
              else dest.address, into[h], cut[h], UpTo(cut, h, end))
    ensures Roomy(s, into) ==> NoneFromBefore(s, h, cut[h], UpTo(cut, h, end))
  {
  }

  /** The plan of a space whose last source chunk has been settled is final once the remaining tops are set. */
  lemma PlanBecomesFinal(s: Space, into: seq<Chunk>, marks: seq<bv32>, table: seq<int>, tops: seq<int>, tops': seq<int>,
                         cut: seq<nat>, dest: Destination)
    returns (cut': seq<nat>)
    requires s.ChunksOk() && 0 < |s.chunks|
    requires PlanState(s, into, marks, table, tops, cut, s.chunks[|s.chunks| - 1].end, dest)
    requires cut[0] == s.chunks[0].start
    requires |tops'| == |tops| && (forall h :: 0 <= h < dest.chunk ==> tops'[h] == tops[h])
    requires tops'[dest.chunk] == dest.address
    requires forall h :: dest.chunk < h < |tops'| ==> tops'[h] == into[h].start
    ensures FinalPlan(s, into, marks, table, tops', cut')
    ensures cut <= cut' && |cut'| == |into| + 1 && dest.chunk == |cut| - 1
    ensures forall h :: |cut| <= h < |cut'| ==> cut'[h] == s.chunks[|s.chunks| - 1].end
  {
    var end := s.chunks[|s.chunks| - 1].end;
    cut' := seq(|into| + 1, h requires 0 <= h => if h < |cut| then cut[h] else end);
    assert |cut| == dest.chunk + 1;
    assert forall h, i :: 0 <= h < i < |cut'| ==> cut'[h] <= cut'[i];
    forall h | 0 <= h < |into|
      ensures PackedChunk(s, marks, table, tops'[h], into[h], cut'[h], cut'[h + 1])
      ensures Roomy(s, into) ==> NoneFromBefore(s, h, cut'[h], cut'[h + 1])
    {
      hide Dest, Space.LiveWords, PlanState;
      if h <= dest.chunk {
        assert cut'[h + 1] == UpTo(cut, h, end);
        SettledChunk(s, into, marks, table, tops, cut, end, dest, h);
      } else {
        NoLiveWords(s, end);
      }
    }
  }

  lemma NoLiveWords(s: Space, p: nat)
    requires p <= |s.mem|
    ensures s.LiveWords(p, p) == 0
  {
  }

  /** The destination chunk of a live object. */
  lemma HomeOf(s: Space, into: seq<Chunk>, marks: seq<bv32>, table: seq<int>, tops: seq<int>, cut: seq<nat>, a: nat)
      returns (h: nat)
    requires s.Valid() && FinalPlan(s, into, marks, table, tops, cut) && a in s.live
    ensures h < |into| && cut[h] <= a < cut[h + 1]
  {
    var c := ChunkIndex(s, a);
    assert s.chunks[0].start <= s.chunks[c].start;
    assert s.chunks[c].end <= s.chunks[|s.chunks| - 1].end;
    h := FindCut(cut, a, |into|);
  }

  lemma {:induction false} FindCut(cut: seq<nat>, a: nat, n: nat) returns (h: nat)
    requires n < |cut| && cut[0] <= a < cut[n]
    ensures h < n && cut[h] <= a < cut[h + 1]
    decreases n
  {
    if cut[n - 1] <= a {
      h := n - 1;
    } else {
      h := FindCut(cut, a, n - 1);
    }
  }

  /** Every live object ends up wholly inside one chunk, below that chunk's top. */
  lemma PlacedInOneChunk(s: Space, into: seq<Chunk>, marks: seq<bv32>, table: seq<int>, tops: seq<int>, cut: seq<nat>,
                         a: nat)
      returns (h: nat)
    requires s.Valid() && FinalPlan(s, into, marks, table, tops, cut) && a in s.live
    ensures h < |into| && cut[h] <= a < cut[h + 1]
    ensures Dest(marks, table, a) == into[h].start + s.LiveWords(cut[h], a)
    ensures a < |s.mem| && Dest(marks, table, a) + s.Size(a) <= tops[h] <= into[h].UsableEnd()
  {
    h := HomeOf(s, into, marks, table, tops, cut, a);
    assert PackedChunk(s, marks, table, tops[h], into[h], cut[h], cut[h + 1]);
    LiveWordsSplit(s, cut[h], a, cut[h + 1]);
    LiveWordsSplit(s, a, a + 1, cut[h + 1]);
    assert s.LiveWords(a, a) == 0;
  }

  /** Destinations keep the source order and do not overlap. */
  lemma DestinationsInOrder(s: Space, into: seq<Chunk>, marks: seq<bv32>, table: seq<int>, tops: seq<int>,
                            cut: seq<nat>, a: nat, b: nat)
    requires s.Valid() && FinalPlan(s, into, marks, table, tops, cut) && a in s.live && b in s.live && a < b
    requires into == s.chunks || Ascending(into)
    ensures a < |s.mem| && Dest(marks, table, a) + s.Size(a) <= Dest(marks, table, b)
  {
    var h := PlacedInOneChunk(s, into, marks, table, tops, cut, a);
    var i := PlacedInOneChunk(s, into, marks, table, tops, cut, b);
    if h == i {
      PackedInOrder(s, cut[h], a, b);
    } else {
      assert into[h].end <= into[i].start;
    }
  }

  /** Objects only move down: a destination is never above its source. */
  lemma DestinationsMoveDown(s: Space, into: seq<Chunk>, marks: seq<bv32>, table: seq<int>, tops: seq<int>,
                             cut: seq<nat>, a: nat)
    requires s.Valid() && FinalPlan(s, into, marks, table, tops, cut) && a in s.live
    requires into == s.chunks || (Roomy(s, into) && NotAbove(s, into))
    ensures 0 <= Dest(marks, table, a) <= a
  {
    var h := PlacedInOneChunk(s, into, marks, table, tops, cut, a);
    RoomyAtHome(s);
    assert NoneFromBefore(s, h, cut[h], cut[h + 1]);
    forall b | b in s.live && cut[h] <= b < a
      ensures b + s.Size(b) <= a
    {
      LiveDisjoint(s, b, a);
    }
    LiveWordsDense(s, cut[h], a, a);
  }

  /** No space is lost: the packed parts of the chunks add up to the live words of the space. */
  ghost function PackedWords(into: seq<Chunk>, tops: seq<int>, n: nat): int
    requires n <= |tops| && n <= |into|
  {
    if n == 0 then 0 else PackedWords(into, tops, n - 1) + tops[n - 1] - into[n - 1].start
  }

  lemma {:induction false} NoWordsLost(s: Space, into: seq<Chunk>, marks: seq<bv32>, table: seq<int>, tops: seq<int>,
                                       cut: seq<nat>, n: nat)
    requires FinalPlan(s, into, marks, table, tops, cut) && n <= |into|
    ensures cut[0] <= cut[n] <= |s.mem|
    ensures PackedWords(into, tops, n) == s.LiveWords(cut[0], cut[n])
  {
    assert n < |into| ==> cut[n] <= cut[|into|];
    if n > 0 {
      NoWordsLost(s, into, marks, table, tops, cut, n - 1);
      assert PackedChunk(s, marks, table, tops[n - 1], into[n - 1], cut[n - 1], cut[n]);
      LiveWordsSplit(s, cut[0], cut[n - 1], cut[n]);
    }
  }
}
