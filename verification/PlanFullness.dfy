/** How full a destination chunk is when the planner closes it and goes on to the next one. */
module PlanFullness {
  import opened GcHeap
  import opened Numbers
  import opened Plan
  import opened PlanSteps
  import opened PlanTheorems

  /** Object a is the last live one of its line, and starts at or after the start that is recorded for the line. */
  ghost predicate LastOfLine(s: Space, starts: seq<int>, a: nat) {
    && a in s.live && a / 32 < |starts| && starts[a / 32] != NO_START && LineOf(a) + starts[a / 32] <= a
    && (forall b :: a < b < LineOf(a) + 32 ==> b !in s.live)
  }

  /** No line from lo to hi that has a recorded start ends below the limit. */
  ghost predicate TooLong(s: Space, marks: seq<bv32>, table: seq<int>, starts: seq<int>, lo: nat, hi: nat, limit: int) {
    forall a {:trigger LastOfLine(s, starts, a)} :: lo <= a < hi && LastOfLine(s, starts, a) ==>
      a < |s.mem| && Dest(marks, table, a) + s.Size(a) > limit
  }

  /** What has been found out about a line: where its last live object ends, or that it has no recorded one. */
  ghost predicate EndOfLine(s: Space, marks: seq<bv32>, table: seq<int>, starts: seq<int>, line: nat, end: Option<int>,
                            last: nat)
  {
    && line / 32 < |starts|
    && (end == None && starts[line / 32] != NO_START ==>
          forall a :: line + starts[line / 32] <= a < line + 32 ==> a !in s.live)
    && (end.Some? ==>
          && 0 <= starts[line / 32] && line + starts[line / 32] <= last < line + 32 && last in s.live && last < |s.mem|
          && (forall a :: last < a < line + 32 ==> a !in s.live)
          && end.value == Dest(marks, table, last) + s.Size(last))
  }

  lemma LineFits(s: Space, marks: seq<bv32>, table: seq<int>, starts: seq<int>, line: nat, end: Option<int>, last: nat)
    requires EndOfLine(s, marks, table, starts, line, end, last) && end.Some?
    ensures line / 32 < |starts| && 0 <= starts[line / 32] && line + starts[line / 32] <= last < line + 32
    ensures last in s.live && (forall a :: last < a < line + 32 ==> a !in s.live)
    ensures last < |s.mem| && end.value == Dest(marks, table, last) + s.Size(last)
  {
  }

  lemma LineBack(start: nat, src: nat, end: nat)
    requires start % 32 == 0 && src % 32 == 0 && end % 32 == 0 && start < src <= end
    ensures start <= src - 32 && (src - 32) % 32 == 0 && src - 32 + 32 <= end && (src - 32) / 32 < end / 32
  {
  }

  lemma NoLines(s: Space, marks: seq<bv32>, table: seq<int>, starts: seq<int>, hi: nat, limit: int)
    ensures TooLong(s, marks, table, starts, hi, hi, limit)
  {
  }

  lemma LineTooLong(s: Space, marks: seq<bv32>, table: seq<int>, starts: seq<int>, line: nat, hi: nat, limit: int,
                    end: Option<int>, last: nat)
    requires line % 32 == 0 && EndOfLine(s, marks, table, starts, line, end, last) && (end == None || end.value > limit)
    requires TooLong(s, marks, table, starts, line + 32, hi, limit)
    ensures TooLong(s, marks, table, starts, line, hi, limit)
  {
    hide Dest;
    forall a | line <= a < hi && LastOfLine(s, starts, a)
      ensures a < |s.mem| && Dest(marks, table, a) + s.Size(a) > limit
    {
      if a < line + 32 { assert LineOf(a) == line && a / 32 == line / 32; }
    }
  }

  /** With the objects from q on packed above `top`, no line that has a recorded start ends below the limit. */
  ghost predicate NothingFits(s: Space, starts: seq<int>, ch: Chunk, top: int, limit: int, q: nat) {
    forall a {:trigger LastOfLine(s, starts, a)} :: q <= a < ch.end && LastOfLine(s, starts, a) ==>
      a < |s.mem| && top + s.LiveWords(q, a) + s.Size(a) > limit
  }

  /**
   The planner closes a destination chunk at q, having come from `from` in source chunk c. If it cut, the objects of the
   next line would not fit any more. If it did not even take the first line, there was no line to stop after.
   */
  ghost predicate ClosedAt(s: Space, starts: seq<int>, c: nat, top: int, limit: int, from: nat, q: nat) {
    && c < |s.chunks| && s.chunks[c].start <= from <= q && q + 32 <= s.chunks[c].end <= |s.mem|
    && if from < q then top + s.LiveWords(q, q + 32) > limit else NothingFits(s, starts, s.chunks[c], top, limit, q)
  }

  /** Chunk h was closed in this way, at the cut after it, which lies in source chunk c. */
  ghost predicate ClosedIn(s: Space, into: seq<Chunk>, starts: seq<int>, tops: seq<int>, cut: seq<nat>, h: nat, c: nat)
  {
    && h < |into| && h < |tops| && h + 1 < |cut| && c < |s.chunks|
    && ClosedAt(s, starts, c, tops[h], into[h].UsableEnd(), Max(cut[h], s.chunks[c].start), cut[h + 1])
  }

  ghost predicate Closed(s: Space, into: seq<Chunk>, starts: seq<int>, tops: seq<int>, cut: seq<nat>, h: nat) {
    exists c: nat :: ClosedIn(s, into, starts, tops, cut, h, c)
  }

  /** All chunks that have been closed, at source addresses below p, were closed in this way. */
  ghost predicate TightTo(s: Space, into: seq<Chunk>, starts: seq<int>, tops: seq<int>, cut: seq<nat>, p: nat) {
    && |cut| <= |into| == |tops|
    && (forall h: nat {:trigger Closed(s, into, starts, tops, cut, h)} :: h < |cut| - 1 ==>
          Closed(s, into, starts, tops, cut, h))
    && (forall h :: 0 < h < |cut| ==> cut[h] < p)
  }

  /** The same for a finished plan, in which the last chunk used and those after it end with the source. */
  ghost predicate Tight(s: Space, into: seq<Chunk>, starts: seq<int>, tops: seq<int>, cut: seq<nat>) {
    && |into| == |tops| && |cut| == |into| + 1
    && (forall h: nat {:trigger Closed(s, into, starts, tops, cut, h)} ::
          h < |into| && cut[h + 1] < cut[|into|] ==> Closed(s, into, starts, tops, cut, h))
  }

  /** The recorded starts, with the start of every one of the first n chunks recorded as well. */
  ghost function WithFirst(s: Space, starts: seq<int>, n: nat): seq<int> {
    seq(|starts|, l requires 0 <= l < |starts| => if FirstLine(s, n, l) then 0 else starts[l])
  }

  ghost predicate FirstLine(s: Space, n: nat, l: nat) {
    exists c :: 0 <= c < |s.chunks| && c < n && s.chunks[c].start / 32 == l
  }

  // ----- closing a chunk -----

  /** The object at x, in the line at q, did not fit: so the chunk, filled up to q, has no room for that line. */
  lemma CutIsFull(s: Space, marks: seq<bv32>, table: seq<int>, ch: Chunk, base: int, limit: int, lo: nat, hi: nat,
                  last: nat, q: nat, x: nat)
    requires s.Tiled(ch) && s.live <= s.objs && MarksAgree(s, marks, ch)
    requires ch.start <= lo <= last < q <= x < q + 32 <= hi <= ch.end && lo % 32 == 0 && hi % 32 == 0
    requires BlackFrom(s, marks, ch, lo) && Filled(marks, table, base, lo, hi)
    requires last in s.live && (forall a :: last < a < q ==> a !in s.live)
    requires x in s.live && Dest(marks, table, x) + s.Size(x) > limit
    ensures last < |s.mem| && Dest(marks, table, last) + s.Size(last) + s.LiveWords(q, q + 32) > limit
  {
    hide Dest, MarkCount, Filled, BlackFrom, MarksAgree, Space.Tiled, Space.LiveWords;
    WithinMemory(s, ch);
    DestInFilled(s, marks, table, ch, base, lo, hi, last);
    DestInFilled(s, marks, table, ch, base, lo, hi, x);
    EndOfStretch(s, lo, last, q);
    LiveWordsSplit(s, lo, q, x);
    AtLeastOne(s, q, x, q + 32);
  }

  lemma AtLeastOne(s: Space, lo: nat, x: nat, hi: nat)
    requires lo <= x < hi <= |s.mem| && x in s.live
    ensures s.LiveWords(lo, x) + s.Size(x) <= s.LiveWords(lo, hi)
  {
    LiveWordsSplit(s, lo, x, hi);
    LiveWordsSplit(s, x, x + 1, hi);
    assert s.LiveWords(x, x) == 0;
  }

  /** No line that the table covers ends below the limit; the lines after that do not either. */
  lemma SkipIsTight(s: Space, marks: seq<bv32>, table: seq<int>, starts: seq<int>, ch: Chunk, base: int, limit: int,
                    lo: nat, hi: nat)
    requires s.Tiled(ch) && s.live <= s.objs && MarksAgree(s, marks, ch)
    requires ch.start <= lo < hi <= ch.end && lo % 32 == 0 && hi % 32 == 0
    requires BlackFrom(s, marks, ch, lo) && Filled(marks, table, base, lo, hi)
    requires base + MarkCount(marks, lo, hi) > limit
    requires TooLong(s, marks, table, starts, lo, hi, limit)
    ensures NothingFits(s, starts, ch, base, limit, lo)
  {
    hide Dest, MarkCount, Filled, BlackFrom, MarksAgree, Space.Tiled, Space.LiveWords;
    WithinMemory(s, ch);
    CountAtMostLive(s, marks, ch, lo, hi);
    forall a | lo <= a < ch.end && LastOfLine(s, starts, a)
      ensures a < |s.mem| && base + s.LiveWords(lo, a) + s.Size(a) > limit
    {
      if a < hi {
        DestInFilled(s, marks, table, ch, base, lo, hi, a);
      } else {
        LiveWordsSplit(s, lo, hi, a);
      }
    }
  }

  lemma LineIsFull(s: Space, into: seq<Chunk>, c: nat, marks: seq<bv32>, table: seq<int>, starts: seq<int>,
                   tops: seq<int>, src: nat, hi: nat, dest: Destination, cut: seq<nat>, last: nat, q: nat, x: nat)
    requires Working(s, into, c, marks, table, starts, tops, src, dest, cut)
    requires src <= last < q <= x < q + 32 <= hi <= s.chunks[c].end && hi % 32 == 0
    requires Filled(marks, table, dest.address, src, hi)
    requires last in s.live && (forall a :: last < a < q ==> a !in s.live)
    requires x in s.live && x < |s.mem| && Dest(marks, table, x) + s.Size(x) > dest.limit
    ensures s.chunks[c].end <= |s.mem| && last < |s.mem|
    ensures Dest(marks, table, last) + s.Size(last) + s.LiveWords(q, q + 32) > dest.limit
  {
    hide Dest, MarkCount, Filled, BlackFrom, MarksAgree, StartsOk, PlanState, Space.Tiled, Space.LiveWords;
    CutIsFull(s, marks, table, s.chunks[c], dest.address, dest.limit, src, hi, last, q, x);
  }

  lemma StretchTight(s: Space, into: seq<Chunk>, c: nat, marks: seq<bv32>, table: seq<int>, starts: seq<int>,
                     tops: seq<int>, src: nat, hi: nat, dest: Destination, cut: seq<nat>)
    requires Working(s, into, c, marks, table, starts, tops, src, dest, cut)
    requires src < hi <= s.chunks[c].end && hi % 32 == 0
    requires Filled(marks, table, dest.address, src, hi) && dest.address + MarkCount(marks, src, hi) > dest.limit
    requires TooLong(s, marks, table, starts, src, hi, dest.limit)
    ensures ClosedAt(s, starts, c, dest.address, dest.limit, src, src)
  {
    hide Dest, MarkCount, Filled, BlackFrom, MarksAgree, StartsOk, PlanState, Space.Tiled, Space.LiveWords, LastOfLine;
    SkipIsTight(s, marks, table, starts, s.chunks[c], dest.address, dest.limit, src, hi);
  }

  lemma WorkingCut(s: Space, into: seq<Chunk>, c: nat, marks: seq<bv32>, table: seq<int>, starts: seq<int>,
                   tops: seq<int>, src: nat, dest: Destination, cut: seq<nat>)
    requires Working(s, into, c, marks, table, starts, tops, src, dest, cut)
    ensures s.ChunksOk() && dest.chunk == |cut| - 1 && cut[dest.chunk] <= src
    ensures dest.chunk < |into| && dest.limit == into[dest.chunk].UsableEnd()
  {
    hide MarksAgree, BlackFrom, StartsOk, Settled, TopsOk, Space.Tiled;
  }

  // ----- the invariant of the planner -----

  lemma TightMore(s: Space, into: seq<Chunk>, starts: seq<int>, tops: seq<int>, tops': seq<int>, cut: seq<nat>, p: nat,
                  c: nat, q: nat)
    requires TightTo(s, into, starts, tops, cut, p) && 0 < |cut| < |into| && q < p && c < |s.chunks|
    requires |tops'| == |tops| && (forall h :: 0 <= h < |tops| && h != |cut| - 1 ==> tops'[h] == tops[h])
    requires ClosedIn(s, into, starts, tops', cut + [q], |cut| - 1, c)
    ensures TightTo(s, into, starts, tops', cut + [q], p)
  {
    hide ClosedAt;
    var cut' := cut + [q];
    forall h: nat | h < |cut'| - 1
      ensures Closed(s, into, starts, tops', cut', h)
    {
      if h < |cut| - 1 {
        assert Closed(s, into, starts, tops, cut, h);
        var d: nat :| ClosedIn(s, into, starts, tops, cut, h, d);
        assert ClosedIn(s, into, starts, tops', cut', h, d);
      }
    }
  }

  lemma TightLater(s: Space, into: seq<Chunk>, starts: seq<int>, tops: seq<int>, cut: seq<nat>, p: nat, p': nat)
    requires TightTo(s, into, starts, tops, cut, p) && p <= p'
    ensures TightTo(s, into, starts, tops, cut, p')
  {
  }

  lemma NoneClosed(s: Space, into: seq<Chunk>, starts: seq<int>, tops: seq<int>, cut: seq<nat>, p: nat)
    requires |cut| == 1 <= |into| == |tops|
    ensures TightTo(s, into, starts, tops, cut, p)
  {
  }

  /** Recording the start of a chunk that has not been reached changes nothing for those closed before. */
  lemma TightEnter(s: Space, into: seq<Chunk>, starts: seq<int>, tops: seq<int>, cut: seq<nat>, c: nat)
    requires s.ChunksOk() && c < |s.chunks| && s.chunks[c].start / 32 < |starts|
    requires TightTo(s, into, starts, tops, cut, s.chunks[c].start)
    ensures TightTo(s, into, starts[s.chunks[c].start / 32 := 0], tops, cut, s.chunks[c].start)
  {
    hide ClosedAt;
    var starts' := starts[s.chunks[c].start / 32 := 0];
    forall h: nat | h < |cut| - 1
      ensures Closed(s, into, starts', tops, cut, h) && cut[h + 1] < s.chunks[c].start
    {
      assert Closed(s, into, starts, tops, cut, h);
      var d: nat :| ClosedIn(s, into, starts, tops, cut, h, d);
      ClosedEnter(s, starts, starts', d, tops[h], into[h].UsableEnd(), Max(cut[h], s.chunks[d].start), cut[h + 1], c);
      assert ClosedIn(s, into, starts', tops, cut, h, d);
    }
  }

  lemma ClosedEnter(s: Space, starts: seq<int>, starts': seq<int>, d: nat, top: int, limit: int, from: nat, q: nat,
                    c: nat)
    requires s.ChunksOk() && c < |s.chunks| && s.chunks[c].start / 32 < |starts| && q < s.chunks[c].start
    requires starts' == starts[s.chunks[c].start / 32 := 0] && ClosedAt(s, starts, d, top, limit, from, q)
    ensures ClosedAt(s, starts', d, top, limit, from, q)
  {
    hide Space.LiveWords;
    assert s.chunks[d].end <= s.chunks[c].start;
    forall a | q <= a < s.chunks[d].end && LastOfLine(s, starts', a)
      ensures LastOfLine(s, starts, a)
    {
      assert a / 32 < s.chunks[c].start / 32;
    }
  }

  lemma TightFinal(s: Space, into: seq<Chunk>, starts: seq<int>, tops: seq<int>, tops': seq<int>, cut: seq<nat>,
                   cut': seq<nat>, p: nat)
    requires TightTo(s, into, starts, tops, cut, p) && 0 < |cut| && |cut'| == |into| + 1 && cut <= cut'
    requires forall h :: |cut| <= h < |cut'| ==> cut'[h] == p
    requires |tops'| == |tops| && forall h :: 0 <= h < |cut| - 1 ==> tops'[h] == tops[h]
    ensures Tight(s, into, starts, tops', cut')
  {
    hide ClosedAt;
    forall h: nat | h < |into| && cut'[h + 1] < cut'[|into|]
      ensures Closed(s, into, starts, tops', cut', h)
    {
      assert h < |cut| - 1;
      assert Closed(s, into, starts, tops, cut, h);
      var d: nat :| ClosedIn(s, into, starts, tops, cut, h, d);
      assert ClosedIn(s, into, starts, tops', cut', h, d);
    }
  }

  lemma OneMoreFirst(s: Space, starts: seq<int>, n: nat)
    requires s.ChunksOk() && n < |s.chunks| && s.chunks[n].start / 32 < |starts|
    ensures WithFirst(s, starts, n)[s.chunks[n].start / 32 := 0] == WithFirst(s, starts, n + 1)
  {
  }

  lemma NoFirst(s: Space, starts: seq<int>)
    ensures WithFirst(s, starts, 0) == starts
  {
  }

  // ----- what follows -----

  /**
   If objects start in the first line of a source chunk and they fit, at least that line goes to the destination chunk
   that is in use then: no chunk that has room for it is closed there.
   */
  lemma FirstLineStays(s: Space, into: seq<Chunk>, starts: seq<int>, tops: seq<int>, cut: seq<nat>, h: nat, c: nat)
    requires s.ChunksOk() && Tight(s, into, WithFirst(s, starts, |s.chunks|), tops, cut) && |s.mem| <= 32 * |starts|
    requires c < |s.chunks| && h < |into| && cut[h + 1] == s.chunks[c].start < cut[|into|]
    requires exists a :: s.chunks[c].start <= a < s.chunks[c].start + 32 && a in s.live
    ensures s.chunks[c].start + 32 <= |s.mem|
    ensures tops[h] + s.LiveWords(s.chunks[c].start, s.chunks[c].start + 32) > into[h].UsableEnd()
  {
    hide Space.LiveWords;
    var q, all := s.chunks[c].start, WithFirst(s, starts, |s.chunks|);
    assert Closed(s, into, all, tops, cut, h);
    var d: nat :| ClosedIn(s, into, all, tops, cut, h, d);
    assert s.chunks[c].start < s.chunks[c].end && s.chunks[d].start <= q < s.chunks[d].end;
    OneChunk(s, c, d);
    assert FirstLine(s, |s.chunks|, q / 32);
    var a := LastLive(s, q, q + 32);
    assert LineOf(a) == q;
    assert LastOfLine(s, all, a);
    AtLeastOne(s, q, a, q + 32);
  }

  lemma OneChunk(s: Space, c: nat, d: nat)
    requires s.ChunksOk() && c < |s.chunks| && d < |s.chunks|
    requires s.chunks[d].start <= s.chunks[c].start < s.chunks[d].end
    ensures c == d
  {
  }

  lemma {:induction false} LastLive(s: Space, lo: nat, hi: nat) returns (a: nat)
    requires exists x :: lo <= x < hi && x in s.live
    ensures lo <= a < hi && a in s.live && forall b :: a < b < hi ==> b !in s.live
    decreases hi
  {
    if hi - 1 in s.live {
      a := hi - 1;
    } else {
      a := LastLive(s, lo, hi - 1);
    }
  }
}
