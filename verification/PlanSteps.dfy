/** The planner's working state on one source chunk and the three ways a stretch of it can end. */
module PlanSteps {
  import opened GcHeap
  import opened Plan

  /** No object start is recorded for the line. */
  const NO_START: int := -1

  datatype Option<T> = None | Some(value: T)

  /** The start of the line that holds address a. */
  function LineOf(a: nat): nat {
    a / 32 * 32
  }

  /** A recorded start is the offset of some object that starts in the line. */
  ghost predicate StartsOk(s: Space, starts: seq<int>, ch: Chunk)
    requires ch.end <= 32 * |starts|
  {
    forall l :: ch.start / 32 <= l < ch.end / 32 ==>
      starts[l] == NO_START || (0 <= starts[l] < 32 && 32 * l + starts[l] in s.objs)
  }

  /** What walking over the objects of a chunk relies on. */
  ghost predicate Walkable(s: Space, ch: Chunk, marks: seq<bv32>, table: seq<int>, starts: seq<int>) {
    && s.Tiled(ch) && s.live <= s.objs && ch.start % 32 == 0 && ch.end % 32 == 0
    && |marks| == |table| == |starts| && ch.end <= 32 * |marks|
    && MarksAgree(s, marks, ch)
    && StartsOk(s, starts, ch)
  }

  /** The planner works on source chunk c and has settled everything below src. */
  ghost predicate Working(s: Space, into: seq<Chunk>, c: nat, marks: seq<bv32>, table: seq<int>, starts: seq<int>,
                          tops: seq<int>,
                          src: nat, dest: Destination, cut: seq<nat>)
  {
    && s.Valid() && c < |s.chunks|
    && s.chunks[c].start <= src <= s.chunks[c].end && src % 32 == 0
    && (Roomy(s, into) ==> dest.chunk <= c)
    && PlanState(s, into, marks, table, tops, cut, src, dest)
    && Walkable(s, s.chunks[c], marks, table, starts)
    && (src < s.chunks[c].end ==> BlackFrom(s, marks, s.chunks[c], src))
  }

  /** Agreement of the marks in every chunk, and no change outside chunk c. */
  ghost predicate MarksKept(s: Space, c: nat, before: seq<bv32>, after: seq<bv32>)
    requires c < |s.chunks|
  {
    && |after| == |before|
    && (forall w: nat :: !(s.chunks[c].start <= w < s.chunks[c].end) ==> Marked(after, w) == Marked(before, w))
  }

  /** Facts about the destination that the code reads off the state. */
  lemma WorkingDest(s: Space, into: seq<Chunk>, c: nat, marks: seq<bv32>, table: seq<int>, starts: seq<int>,
                    tops: seq<int>,
                    src: nat, dest: Destination, cut: seq<nat>)
    requires Working(s, into, c, marks, table, starts, tops, src, dest, cut)
    ensures c < |s.chunks| && dest.chunk < |into| == |tops| && (Roomy(s, into) ==> dest.chunk <= c)
    ensures dest.address <= dest.limit && dest.chunk < |cut|
    ensures s.chunks[c].start % 32 == 0 && s.chunks[c].end % 32 == 0
    ensures s.chunks[c].start < s.chunks[c].end <= 32 * |table|
    ensures |marks| == |table| == |starts| && s.chunks[c].end <= |s.mem|
    ensures s.chunks[c].start <= src <= s.chunks[c].end && src % 32 == 0
  {
  }

  /** Filling in table entries from src on does not disturb the state. */
  lemma TableFilled(s: Space, into: seq<Chunk>, c: nat, marks: seq<bv32>, table: seq<int>, table': seq<int>,
                    starts: seq<int>, tops: seq<int>,
                    src: nat, dest: Destination, cut: seq<nat>)
    requires Working(s, into, c, marks, table, starts, tops, src, dest, cut)
    requires |table'| == |table|
    requires forall l :: 0 <= l < |table| && !(src / 32 <= l < s.chunks[c].end / 32) ==> table'[l] == table[l]
    ensures Working(s, into, c, marks, table', starts, tops, src, dest, cut)
  {
    hide MarksAgree, BlackFrom, StartsOk, Space.Tiled;
    PlanFrame(s, into, marks, table, marks, table', tops, cut, src, dest);
  }

  /** First way: the rest of the chunk fits. */
  lemma StretchDone(s: Space, into: seq<Chunk>, c: nat, marks: seq<bv32>, table: seq<int>, starts: seq<int>,
                    tops: seq<int>,
                    src: nat, dest: Destination, cut: seq<nat>)
    requires Working(s, into, c, marks, table, starts, tops, src, dest, cut)
    requires Filled(marks, table, dest.address, src, s.chunks[c].end)
    requires dest.address + MarkCount(marks, src, s.chunks[c].end) <= dest.limit
    ensures Working(s, into, c, marks, table, starts, tops, s.chunks[c].end,
                    dest.(address := dest.address + MarkCount(marks, src, s.chunks[c].end)), cut)
  {
    hide MarksAgree, BlackFrom, StartsOk, Filled, PlanState, Space.Tiled;
    if src < s.chunks[c].end {
      FinishPlan(s, into, marks, table, tops, cut, s.chunks[c], src, dest);
    }
  }

  /** Where each destination chunk has room for the source chunk at its position, only earlier ones overflow. */
  lemma OverflowsEarlier(s: Space, into: seq<Chunk>, c: nat, marks: seq<bv32>, table: seq<int>, starts: seq<int>,
                         tops: seq<int>,
                         src: nat, hi: nat, dest: Destination, cut: seq<nat>)
    requires Working(s, into, c, marks, table, starts, tops, src, dest, cut)
    requires src < hi <= s.chunks[c].end
    requires dest.address + MarkCount(marks, src, hi) > dest.limit
    ensures Roomy(s, into) ==> dest.chunk < c
  {
    hide MarksAgree, BlackFrom, StartsOk, Filled, Space.Tiled, Settled, TopsOk;
    if Roomy(s, into) && dest.chunk == c {
      NoOverflowAtHome(s, into, marks, cut[c], c, src, hi);
    }
  }

  /** The live objects of source chunk c from `src` on do not fit into what is left of the last destination chunk. */
  ghost predicate NoRoom(s: Space, into: seq<Chunk>, c: nat, src: nat, dest: Destination) {
    && c < |s.chunks| && src <= s.chunks[c].end <= |s.mem| && dest.chunk + 1 == |into|
    && dest.address + s.LiveWords(src, s.chunks[c].end) > dest.limit
  }

  /** All objects below `reached` have been placed as planned, and those after it do not fit. */
  ghost predicate OutOfRoom(s: Space, into: seq<Chunk>, marks: seq<bv32>, table: seq<int>, tops: seq<int>,
                            cut: seq<nat>,
                            c: nat, reached: nat, dest: Destination)
  {
    PlanState(s, into, marks, table, tops, cut, reached, dest) && NoRoom(s, into, c, reached, dest)
  }

  lemma OutOfChunks(s: Space, into: seq<Chunk>, c: nat, marks: seq<bv32>, table: seq<int>, starts: seq<int>,
                    tops: seq<int>,
                    src: nat, hi: nat, dest: Destination, cut: seq<nat>)
    requires Working(s, into, c, marks, table, starts, tops, src, dest, cut)
    requires src < hi <= s.chunks[c].end && dest.chunk + 1 == |into|
    requires dest.address + MarkCount(marks, src, hi) > dest.limit && (Roomy(s, into) ==> dest.chunk < c)
    ensures NoRoom(s, into, c, src, dest) && !Roomy(s, into)
  {
    hide MarksAgree, BlackFrom, StartsOk, Space.Tiled, Settled, TopsOk;
    CountAtMostLive(s, marks, s.chunks[c], src, hi);
    LiveWordsSplit(s, src, hi, s.chunks[c].end);
  }

  function NextDestination(into: seq<Chunk>, dest: Destination): Destination
    requires dest.chunk + 1 < |into|
  {
    Destination(dest.chunk + 1, into[dest.chunk + 1].start, into[dest.chunk + 1].UsableEnd())
  }

  lemma NextChunkStarts(s: Space, c: nat, k: nat)
    requires s.ChunksOk() && k < c < |s.chunks|
    ensures s.chunks[k + 1].start <= s.chunks[c].start && s.chunks[k + 1].start < s.chunks[k + 1].end
  {
  }

  /** Second way: not even the first line fits, so the whole stretch moves on to the next chunk. */
  lemma StretchSkipped(s: Space, into: seq<Chunk>, c: nat, marks: seq<bv32>, table: seq<int>, starts: seq<int>,
                       tops: seq<int>,
                       src: nat, dest: Destination, cut: seq<nat>)
    requires Working(s, into, c, marks, table, starts, tops, src, dest, cut)
    requires dest.chunk + 1 < |into| && dest.chunk < |tops| && (Roomy(s, into) ==> dest.chunk < c)
    ensures Working(s, into, c, marks, table, starts, tops[dest.chunk := dest.address], src,
              NextDestination(into, dest), cut + [src])
  {
    hide MarksAgree, BlackFrom, StartsOk, PlanState, Space.Tiled;
    if Roomy(s, into) { NextChunkStarts(s, c, dest.chunk); }
    NextChunk(s, into, marks, table, tops, cut, src, dest);
  }

  /** Third way: the stretch is cut at the line of the first object that does not fit. */
  lemma StretchCut(s: Space, into: seq<Chunk>, c: nat, marks: seq<bv32>, marks': seq<bv32>, table: seq<int>,
                   starts: seq<int>, tops: seq<int>,
                   src: nat, hi: nat, last: nat, q: nat, end: int, dest: Destination, cut: seq<nat>)
    requires Working(s, into, c, marks, table, starts, tops, src, dest, cut)
    requires src <= last < q && q + 32 <= hi <= s.chunks[c].end && q % 32 == 0 && hi % 32 == 0
    requires Filled(marks, table, dest.address, src, hi)
    requires last in s.live && (forall a :: last < a < q ==> a !in s.live)
    requires end == Dest(marks, table, last) + s.Size(last) <= dest.limit
    requires dest.chunk + 1 < |into| && dest.chunk < |tops| && (Roomy(s, into) ==> dest.chunk < c)
    requires Zapped(marks, marks', q, last + s.Size(last))
    ensures Working(s, into, c, marks', table, starts, tops[dest.chunk := end], q, NextDestination(into, dest),
              cut + [q])
  {
    CutPlan(s, into, c, marks, marks', table, starts, tops, src, hi, last, q, end, dest, cut);
    CutMarks(s, into, c, marks, marks', table, starts, tops, src, last, q, dest, cut);
    assert |marks'| == |marks|;
    hide Dest, BlackFrom, StartsOk, PlanState, Filled, Marked, MarkCount, MarksAgree, Zapped, Space.Tiled;
  }

  lemma CutPlan(s: Space, into: seq<Chunk>, c: nat, marks: seq<bv32>, marks': seq<bv32>, table: seq<int>,
                starts: seq<int>, tops: seq<int>,
                src: nat, hi: nat, last: nat, q: nat, end: int, dest: Destination, cut: seq<nat>)
    requires Working(s, into, c, marks, table, starts, tops, src, dest, cut)
    requires src <= last < q <= hi <= s.chunks[c].end && hi % 32 == 0
    requires Filled(marks, table, dest.address, src, hi)
    requires last in s.live && (forall a :: last < a < q ==> a !in s.live)
    requires end == Dest(marks, table, last) + s.Size(last) <= dest.limit
    requires dest.chunk + 1 < |into| && dest.chunk < |tops| && (Roomy(s, into) ==> dest.chunk < c)
    requires Zapped(marks, marks', q, last + s.Size(last))
    ensures PlanState(s, into, marks', table, tops[dest.chunk := end], cut + [q], q, NextDestination(into, dest))
  {
    hide Dest, BlackFrom, StartsOk, PlanState, Filled, Marked, MarkCount, MarksAgree, Zapped, Space.Tiled;
    if Roomy(s, into) { NextChunkStarts(s, c, dest.chunk); }
    ClosePlan(s, into, marks, table, tops, cut, s.chunks[c], src, hi, last, q, end, dest);
    PlanZapFrame(s, into, marks, marks', table, tops[dest.chunk := end], cut + [q], q, last + s.Size(last),
                 NextDestination(into, dest));
  }

  lemma CutMarks(s: Space, into: seq<Chunk>, c: nat, marks: seq<bv32>, marks': seq<bv32>, table: seq<int>,
                 starts: seq<int>, tops: seq<int>,
                 src: nat, last: nat, q: nat, dest: Destination, cut: seq<nat>)
    requires Working(s, into, c, marks, table, starts, tops, src, dest, cut)
    requires src <= last < q && q + 32 <= s.chunks[c].end
    requires last in s.live && (forall a :: last < a < q ==> a !in s.live)
    requires Zapped(marks, marks', q, last + s.Size(last))
    ensures BlackFrom(s, marks', s.chunks[c], q) && MarksAgree(s, marks', s.chunks[c])
  {
    var ch := s.chunks[c];
    assert s.ObjectOk(ch, last);
    hide BlackFrom, StartsOk, PlanState, Marked, MarkCount, MarksAgree, Zapped, Space.Tiled;
    BlackAfterCut(s, marks, marks', ch, src, last, q);
    ZapKeepsAgreement(s, marks, marks', ch, last, q, last + s.Size(last), ch);
  }

  lemma WorkingWalk(s: Space, into: seq<Chunk>, c: nat, marks: seq<bv32>, table: seq<int>, starts: seq<int>,
                    tops: seq<int>,
                    src: nat, dest: Destination, cut: seq<nat>)
    requires Working(s, into, c, marks, table, starts, tops, src, dest, cut)
    ensures Walkable(s, s.chunks[c], marks, table, starts)
  {
  }

  lemma WorkingPlan(s: Space, into: seq<Chunk>, c: nat, marks: seq<bv32>, table: seq<int>, starts: seq<int>,
                    tops: seq<int>,
                    src: nat, dest: Destination, cut: seq<nat>)
    requires Working(s, into, c, marks, table, starts, tops, src, dest, cut)
    ensures PlanState(s, into, marks, table, tops, cut, src, dest) && (Roomy(s, into) ==> dest.chunk <= c)
  {
  }

  lemma StartPlan(s: Space, into: seq<Chunk>, marks: seq<bv32>, table: seq<int>, starts: seq<int>, tops: seq<int>)
    requires Prepared(s, marks, table, starts, 0) && 0 < |s.chunks| && 0 < |into| == |tops| && NonEmpty(into)
    ensures PlanState(s, into, marks, table, tops, [s.chunks[0].start], s.chunks[0].start,
                      Destination(0, into[0].start, into[0].UsableEnd()))
  {
    hide BlackFrom, MarksAgree, StartsOk, Space.Tiled;
  }

  lemma CutPoint(s: Space, into: seq<Chunk>, c: nat, marks: seq<bv32>, table: seq<int>, starts: seq<int>,
                 tops: seq<int>,
                 src: nat, hi: nat, dest: Destination, cut: seq<nat>, line: nat, first: nat, last: nat, x: nat)
    requires Working(s, into, c, marks, table, starts, tops, src, dest, cut)
    requires src <= line && line + 32 <= hi <= s.chunks[c].end && hi % 32 == 0
    requires Filled(marks, table, dest.address, src, hi)
    requires dest.address + MarkCount(marks, src, hi) > dest.limit
    requires line <= first <= last < line + 32 && last in s.live && (forall a :: last < a < line + 32 ==> a !in s.live)
    requires Dest(marks, table, last) + s.Size(last) <= dest.limit
    requires first <= x < s.chunks[c].end && s.Boundary(s.chunks[c], x)
    requires forall a :: a in s.live && first <= a < x ==> Dest(marks, table, a) + s.Size(a) <= dest.limit
    requires x in s.objs ==> x in s.live && Dest(marks, table, x) + s.Size(x) > dest.limit
    ensures x in s.live && line + 32 <= x < hi
  {
    assert dest.address <= dest.limit;
    hide Marked, Filled, MarkCount, Dest, BlackFrom, MarksAgree, PlanState, StartsOk, Space.Tiled;
    StopsInsideTable(s, marks, table, s.chunks[c], dest.address, src, hi, dest.limit, line, first, last, x);
  }

  lemma CutLine(line: nat, hi: nat, x: nat)
    requires line % 32 == 0 && hi % 32 == 0 && line + 32 <= x < hi
    ensures LineOf(x) % 32 == 0 && line + 32 <= LineOf(x) <= x < LineOf(x) + 32 <= hi
  {
  }

  lemma BeforeCut(s: Space, into: seq<Chunk>, c: nat, marks: seq<bv32>, table: seq<int>, starts: seq<int>,
                  tops: seq<int>,
                  src: nat, dest: Destination, cut: seq<nat>, last: nat, x: nat)
    requires Working(s, into, c, marks, table, starts, tops, src, dest, cut)
    requires last in s.live && x in s.live && last < x < |s.mem|
    ensures last + s.Size(last) <= x
  {
    LiveDisjoint(s, last, x);
  }

  lemma ZappedInside(s: Space, c: nat, marks: seq<bv32>, marks': seq<bv32>, lo: nat, hi: nat)
    requires c < |s.chunks| && s.chunks[c].start <= lo && hi <= s.chunks[c].end
    requires Zapped(marks, marks', lo, hi)
    ensures MarksKept(s, c, marks, marks')
  {
  }

  lemma NoMarksChanged(s: Space, c: nat, marks: seq<bv32>)
    requires c < |s.chunks|
    ensures MarksKept(s, c, marks, marks)
  {
  }

  lemma MarksKeptTwice(s: Space, c: nat, m1: seq<bv32>, m2: seq<bv32>, m3: seq<bv32>)
    requires c < |s.chunks| && MarksKept(s, c, m1, m2) && MarksKept(s, c, m2, m3)
    ensures MarksKept(s, c, m1, m3)
  {
    hide Marked;
    forall w: nat | !(s.chunks[c].start <= w < s.chunks[c].end)
      ensures Marked(m3, w) == Marked(m1, w)
    {
      assert Marked(m2, w) == Marked(m1, w);
    }
  }

  lemma FirstStart(s: Space, into: seq<Chunk>, c: nat, marks: seq<bv32>, table: seq<int>, starts: seq<int>,
                   starts': seq<int>, tops: seq<int>,
                   src: nat, dest: Destination, cut: seq<nat>)
    requires Working(s, into, c, marks, table, starts, tops, src, dest, cut)
    requires s.chunks[c].start / 32 < |starts| && starts' == starts[s.chunks[c].start / 32 := 0]
    ensures Working(s, into, c, marks, table, starts', tops, src, dest, cut)
  {
    hide PlanState, BlackFrom, MarksAgree;
    var ch := s.chunks[c];
    assert ch.start == 32 * (ch.start / 32);
    assert ch.start in s.objs;
  }

  /** All chunks have agreeing marks; chunks from c on are black and have their object starts recorded. */
  ghost predicate Prepared(s: Space, marks: seq<bv32>, table: seq<int>, starts: seq<int>, c: nat) {
    && s.Valid() && |marks| == |table| == |starts| && |s.mem| <= 32 * |marks|
    && (forall d :: 0 <= d < |s.chunks| ==> MarksAgree(s, marks, s.chunks[d]))
    && (forall d :: c <= d < |s.chunks| ==> BlackFrom(s, marks, s.chunks[d], s.chunks[d].start))
    && (forall d :: c <= d < |s.chunks| ==> StartsOk(s, starts, s.chunks[d]))
  }

  /** The end of what is settled before source chunk c is visited. */
  ghost function SettledBefore(s: Space, c: nat): nat
    requires c <= |s.chunks| && 0 < |s.chunks|
  {
    if c == 0 then s.chunks[0].start else s.chunks[c - 1].end
  }

  lemma PreparedValid(s: Space, marks: seq<bv32>, table: seq<int>, starts: seq<int>, c: nat)
    requires Prepared(s, marks, table, starts, c)
    ensures s.ChunksOk()
  {
  }

  lemma NothingBetween(s: Space, c: nat, a: nat)
    requires s.Valid() && c < |s.chunks| && a in s.live && a < s.chunks[c].start
    ensures a < SettledBefore(s, c)
  {
    hide Space.Tiled, Space.ObjectOk, ChunkIndex;
    var d := ChunkIndex(s, a);
    assert d < c;
    assert d < c - 1 ==> s.chunks[d].end <= s.chunks[c - 1].start;
  }

  lemma EnterChunk(s: Space, into: seq<Chunk>, c: nat, marks: seq<bv32>, table: seq<int>, starts: seq<int>,
                   tops: seq<int>,
                   dest: Destination, cut: seq<nat>)
    requires c < |s.chunks| && Prepared(s, marks, table, starts, c)
    requires PlanState(s, into, marks, table, tops, cut, SettledBefore(s, c), dest)
    requires Roomy(s, into) ==> dest.chunk <= c
    ensures Working(s, into, c, marks, table, starts, tops, s.chunks[c].start, dest, cut)
  {
    hide PlanState, BlackFrom, MarksAgree, StartsOk, Space.Tiled;
    forall a | a in s.live && a < s.chunks[c].start
      ensures a < SettledBefore(s, c)
    {
      NothingBetween(s, c, a);
    }
    SkipGap(s, into, marks, table, tops, cut, SettledBefore(s, c), s.chunks[c].start, dest);
  }

  lemma LeaveOtherChunk(s: Space, c: nat, d: nat, marks: seq<bv32>, marks': seq<bv32>, starts: seq<int>,
                        starts': seq<int>)
    requires s.Valid() && c < |s.chunks| && d < |s.chunks| && c != d
    requires |s.mem| <= 32 * |starts| && |starts'| == |starts|
    requires MarksAgree(s, marks, s.chunks[d]) && MarksKept(s, c, marks, marks')
    requires forall l :: 0 <= l < |starts| && l != s.chunks[c].start / 32 ==> starts'[l] == starts[l]
    ensures MarksAgree(s, marks', s.chunks[d])
    ensures BlackFrom(s, marks, s.chunks[d], s.chunks[d].start) ==> BlackFrom(s, marks', s.chunks[d], s.chunks[d].start)
    ensures StartsOk(s, starts, s.chunks[d]) ==> StartsOk(s, starts', s.chunks[d])
  {
    hide BlackFrom, MarksAgree, Marked, Space.Tiled;
    assert c < d ==> s.chunks[c].end <= s.chunks[d].start;
    OtherChunk(s, marks, marks', s.chunks[d]);
    OtherStarts(s, c, d, starts, starts');
  }

  lemma OtherStarts(s: Space, c: nat, d: nat, starts: seq<int>, starts': seq<int>)
    requires s.ChunksOk() && c < |s.chunks| && d < |s.chunks| && c != d
    requires |s.mem| <= 32 * |starts| && |starts'| == |starts|
    requires forall l :: 0 <= l < |starts| && l != s.chunks[c].start / 32 ==> starts'[l] == starts[l]
    ensures StartsOk(s, starts, s.chunks[d]) ==> StartsOk(s, starts', s.chunks[d])
  {
    assert s.chunks[c].end <= s.chunks[d].start || s.chunks[d].end <= s.chunks[c].start;
  }

  lemma LeaveChunk(s: Space, into: seq<Chunk>, c: nat, marks: seq<bv32>, marks': seq<bv32>, table: seq<int>,
                   table': seq<int>,
                   starts: seq<int>, starts': seq<int>, tops: seq<int>, dest: Destination, cut: seq<nat>)
    requires c < |s.chunks| && Prepared(s, marks, table, starts, c)
    requires Working(s, into, c, marks', table', starts', tops, s.chunks[c].end, dest, cut)
    requires MarksKept(s, c, marks, marks')
    requires |starts'| == |starts|
    requires forall l :: 0 <= l < |starts| && l != s.chunks[c].start / 32 ==> starts'[l] == starts[l]
    ensures Prepared(s, marks', table', starts', c + 1)
  {
    hide BlackFrom, MarksAgree, Marked, StartsOk, PlanState, MarksKept, Space.Tiled;
    forall d | 0 <= d < |s.chunks|
      ensures MarksAgree(s, marks', s.chunks[d])
      ensures c < d ==> BlackFrom(s, marks', s.chunks[d], s.chunks[d].start) && StartsOk(s, starts', s.chunks[d])
    {
      if d != c {
        LeaveOtherChunk(s, c, d, marks, marks', starts, starts');
      }
    }
  }

  lemma OtherChunk(s: Space, marks: seq<bv32>, marks': seq<bv32>, ch: Chunk)
    requires s.Tiled(ch) && s.live <= s.objs && MarksAgree(s, marks, ch)
    requires forall w: nat :: ch.start <= w < ch.end ==> Marked(marks', w) == Marked(marks, w)
    ensures MarksAgree(s, marks', ch)
    ensures BlackFrom(s, marks, ch, ch.start) ==> BlackFrom(s, marks', ch, ch.start)
  {
    hide Marked;
    forall a | a in s.objs && ch.start <= a < ch.end
      ensures ObjectMarks(s, marks', a)
      ensures AllMarked(marks, a, a + s.Size(a)) ==> AllMarked(marks', a, a + s.Size(a))
    {
      assert s.ObjectOk(ch, a);
      assert ObjectMarks(s, marks, a);
    }
  }
}
