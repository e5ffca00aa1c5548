/**
 What a compaction plan is. Destination chunk h receives the live objects that start in
 [cut[h], cut[h + 1]) and packs them, in order and without gaps, from its start.
 */
module Plan {
  import opened Bits
  import opened GcHeap

  /** Where the next live object goes: a chunk (by list position), an address in it, and its limit. */
  datatype Destination = Destination(chunk: nat, address: int, limit: int)

  /** The destination of address a: the entry of its line plus one word per mark before it in the line. */
  ghost function Dest(marks: seq<bv32>, table: seq<int>, a: nat): int {
    if a / 32 < |table| && a / 32 < |marks| then table[a / 32] + Ones(marks[a / 32], a % 32) else 0
  }

  lemma DestByCount(marks: seq<bv32>, table: seq<int>, a: nat)
    requires a / 32 < |table| && a / 32 < |marks|
    ensures Dest(marks, table, a) == table[a / 32] + MarkCount(marks, 32 * (a / 32), a)
  {
    hide Ones, MarkCount;
    MarkCountInLine(marks, a / 32, a % 32);
  }

  /** One past the last source address assigned to destination chunk h, when addresses below p are settled. */
  ghost function UpTo(cut: seq<nat>, h: nat, p: nat): nat {
    if h + 1 < |cut| then cut[h + 1] else p
  }

  /** The cuts are in order. */
  ghost predicate CutsOk(cut: seq<nat>, p: nat) {
    && 0 < |cut|
    && (forall h :: 0 <= h < |cut| ==> cut[h] <= p)
    && (forall h, i :: 0 <= h < i < |cut| ==> cut[h] <= cut[i])
  }

  ghost predicate NonEmpty(into: seq<Chunk>) {
    forall h {:trigger into[h]} :: 0 <= h < |into| ==> into[h].start < into[h].end
  }

  /** Each destination chunk is at least as large as the source chunk at its position. */
  ghost predicate Roomy(s: Space, into: seq<Chunk>) {
    && |s.chunks| <= |into|
    && (forall h {:trigger into[h]} :: 0 <= h < |s.chunks| ==>
           s.chunks[h].end - s.chunks[h].start <= into[h].end - into[h].start)
  }

  /** Then no chunk receives an object from before the source chunk at its position. */
  ghost predicate KeepsBack(s: Space, into: seq<Chunk>, cut: seq<nat>) {
    Roomy(s, into) ==> |cut| <= |s.chunks| && forall h :: 0 <= h < |cut| ==> s.chunks[h].start <= cut[h]
  }

  /** There is always room to compact a space into its own chunks. */
  lemma RoomyAtHome(s: Space)
    requires s.ChunksOk()
    ensures Roomy(s, s.chunks) && NonEmpty(s.chunks)
  {
  }

  /** The top of every finished chunk is where its last object ends, inside the chunk. */
  ghost predicate TopsOk(s: Space, into: seq<Chunk>, tops: seq<int>, cut: seq<nat>, p: nat)
    requires CutsOk(cut, p) && p <= |s.mem| && |cut| <= |into| == |tops|
  {
    forall h {:trigger tops[h]} :: 0 <= h < |cut| - 1 ==>
      tops[h] == into[h].start + s.LiveWords(cut[h], cut[h + 1]) <= into[h].UsableEnd()
  }

  /** The planned destination of every live object below p. */
  ghost predicate Settled(s: Space, into: seq<Chunk>, marks: seq<bv32>, table: seq<int>, cut: seq<nat>, p: nat)
    requires CutsOk(cut, p) && p <= |s.mem| <= 32 * |table| && |marks| == |table| && |cut| <= |into|
  {
    forall h, a {:trigger cut[h], Dest(marks, table, a)} ::
      0 <= h < |cut| && a in s.live && cut[h] <= a < UpTo(cut, h, p) ==>
        Dest(marks, table, a) == into[h].start + s.LiveWords(cut[h], a)
  }

  ghost predicate PlanState(s: Space, into: seq<Chunk>, marks: seq<bv32>, table: seq<int>, tops: seq<int>,
                            cut: seq<nat>, p: nat, dest: Destination)
  {
    && p <= |s.mem| <= 32 * |table| && |marks| == |table| && |cut| <= |into| == |tops| && NonEmpty(into)
    && CutsOk(cut, p) && KeepsBack(s, into, cut)
    && TopsOk(s, into, tops, cut, p)
    && Settled(s, into, marks, table, cut, p)
    && dest.chunk == |cut| - 1
    && dest.limit == into[dest.chunk].UsableEnd()
    && dest.address == into[dest.chunk].start + s.LiveWords(cut[dest.chunk], p) <= dest.limit
  }

  /** The table entries of the lines in [lo, hi) when the line at lo is sent to `base`. */
  ghost predicate Filled(marks: seq<bv32>, table: seq<int>, base: int, lo: nat, hi: nat) {
    && hi <= 32 * |table| && |marks| == |table|
    && (forall l :: lo / 32 <= l < hi / 32 ==> table[l] == base + MarkCount(marks, lo, 32 * l))
  }

  lemma StretchBase(marks: seq<bv32>, table: seq<int>, base: int, lo: nat, hi: nat)
    requires Filled(marks, table, base, lo, hi) && lo < hi && lo % 32 == 0 && hi % 32 == 0
    ensures table[lo / 32] == base
  {
    assert 32 * (lo / 32) == lo;
  }

  lemma FilledStep(marks: seq<bv32>, table: seq<int>, table': seq<int>, base: int, lo: nat, hi: nat)
    requires Filled(marks, table, base, lo, hi) && lo <= hi && lo % 32 == 0 && hi % 32 == 0 && hi / 32 < |table|
    requires table' == table[hi / 32 := base + MarkCount(marks, lo, hi)]
    ensures Filled(marks, table', base, lo, hi + 32)
  {
    assert 32 * (hi / 32) == hi;
  }

  /** Inside a filled stretch the table and the partial line add up to the live words before the object. */
  lemma DestInFilled(s: Space, marks: seq<bv32>, table: seq<int>, ch: Chunk, base: int, lo: nat, hi: nat, a: nat)
    requires s.Tiled(ch) && s.live <= s.objs && MarksAgree(s, marks, ch)
    requires ch.start <= lo <= a < hi <= ch.end && lo % 32 == 0 && hi % 32 == 0 && s.Boundary(ch, a)
    requires BlackFrom(s, marks, ch, lo)
    requires Filled(marks, table, base, lo, hi)
    ensures Dest(marks, table, a) == base + s.LiveWords(lo, a)
  {
    hide Marked, Ones;
    DestByCount(marks, table, a);
    MarkCountSplit(marks, lo, 32 * (a / 32), a);
    CountIsLiveFrom(s, marks, ch, lo, a);
  }

  /** If the marks of a stretch overflow the limit, some live object that starts in it does not fit. */
  lemma {:induction false} OverflowWitness(s: Space, lo: nat, hi: nat, room: int)
    requires lo <= hi <= |s.mem| && 0 <= room < s.LiveWords(lo, hi)
    ensures exists x :: x in s.live && lo <= x < hi && s.LiveWords(lo, x) + s.Size(x) > room
    decreases hi
  {
    if hi - 1 in s.live {
      assert s.LiveWords(lo, hi - 1) + s.Size(hi - 1) > room;
    } else {
      OverflowWitness(s, lo, hi - 1, room);
    }
  }

  /** Adding one more table entry at a time keeps earlier destinations. */
  lemma SettledFrame(s: Space, into: seq<Chunk>, marks: seq<bv32>, table: seq<int>, marks': seq<bv32>, table': seq<int>,
                     cut: seq<nat>, p: nat)
    requires |cut| <= |into| && CutsOk(cut, p) && p <= |s.mem| <= 32 * |table|
    requires |table'| == |table| == |marks| == |marks'|
    requires Settled(s, into, marks, table, cut, p)
    requires forall l :: 0 <= l < |table| && 32 * l < p ==> table'[l] == table[l]
    requires forall w: nat :: w < p ==> Marked(marks', w) == Marked(marks, w)
    ensures Settled(s, into, marks', table', cut, p)
  {
    hide Marked, Ones;
    forall h, a | 0 <= h < |cut| && a in s.live && cut[h] <= a < UpTo(cut, h, p)
      ensures Dest(marks', table', a) == into[h].start + s.LiveWords(cut[h], a)
    {
      assert a < p;
      DestByCount(marks, table, a);
      DestByCount(marks', table', a);
      MarkCountFrame(marks, marks', 32 * (a / 32), a);
    }
  }

  lemma {:induction false} MarkCountFrame(marks: seq<bv32>, marks': seq<bv32>, lo: nat, hi: nat)
    requires forall w :: lo <= w < hi ==> Marked(marks', w) == Marked(marks, w)
    ensures MarkCount(marks', lo, hi) == MarkCount(marks, lo, hi)
    decreases hi
  {
    hide Marked;
    if lo < hi { MarkCountFrame(marks, marks', lo, hi - 1); }
  }

  /** The plan extends over a stretch that fits: everything up to q goes to the current chunk. */
  lemma ExtendPlan(s: Space, into: seq<Chunk>, marks: seq<bv32>, table: seq<int>, tops: seq<int>, cut: seq<nat>,
                   ch: Chunk, lo: nat, hi: nat, q: nat, dest: Destination)
    requires s.Tiled(ch) && s.live <= s.objs && MarksAgree(s, marks, ch)
    requires ch.start <= lo <= q <= hi <= ch.end && lo < ch.end && lo % 32 == 0 && hi % 32 == 0
    requires PlanState(s, into, marks, table, tops, cut, lo, dest)
    requires BlackFrom(s, marks, ch, lo)
    requires Filled(marks, table, dest.address, lo, hi)
    requires dest.address + s.LiveWords(lo, q) <= dest.limit
    ensures PlanState(s, into, marks, table, tops, cut, q, dest.(address := dest.address + s.LiveWords(lo, q)))
  {
    var k := dest.chunk;
    LiveWordsSplit(s, cut[k], lo, q);
    forall h, a | 0 <= h < |cut| && a in s.live && cut[h] <= a < UpTo(cut, h, q)
      ensures Dest(marks, table, a) == into[h].start + s.LiveWords(cut[h], a)
    {
      if a < UpTo(cut, h, lo) {
      } else {
        assert h == k && lo <= a < q;
        DestInFilled(s, marks, table, ch, dest.address, lo, hi, a);
        LiveWordsSplit(s, cut[k], lo, a);
      }
    }
  }

  /** Closing the current chunk at p: its top is recorded and the next chunk starts empty. */
  lemma NextChunk(s: Space, into: seq<Chunk>, marks: seq<bv32>, table: seq<int>, tops: seq<int>, cut: seq<nat>, p: nat,
                  dest: Destination)
    requires PlanState(s, into, marks, table, tops, cut, p, dest)
    requires dest.chunk + 1 < |into|
    requires Roomy(s, into) ==> dest.chunk + 1 < |s.chunks| && s.chunks[dest.chunk + 1].start <= p
    ensures var n := into[dest.chunk + 1];
            PlanState(s, into, marks, table, tops[dest.chunk := dest.address], cut + [p], p,
                      Destination(dest.chunk + 1, n.start, n.UsableEnd()))
  {
    var cut' := cut + [p];
    var tops' := tops[dest.chunk := dest.address];
    var k := dest.chunk;
    assert CutsOk(cut', p);
    assert s.LiveWords(p, p) == 0;
    assert TopsOk(s, into, tops', cut', p);
    forall h, a | 0 <= h < |cut'| && a in s.live && cut'[h] <= a < UpTo(cut', h, p)
      ensures Dest(marks, table, a) == into[h].start + s.LiveWords(cut'[h], a)
    {
      assert h < |cut| && a < UpTo(cut, h, p);
    }
    assert Settled(s, into, marks, table, cut', p);
  }

  /** Between chunks there is nothing to move. */
  lemma SkipGap(s: Space, into: seq<Chunk>, marks: seq<bv32>, table: seq<int>, tops: seq<int>, cut: seq<nat>, p: nat,
                q: nat, dest: Destination)
    requires PlanState(s, into, marks, table, tops, cut, p, dest)
    requires p <= q <= |s.mem|
    requires forall a :: p <= a < q ==> a !in s.live
    ensures PlanState(s, into, marks, table, tops, cut, q, dest)
  {
    var k := dest.chunk;
    LiveWordsSplit(s, cut[k], p, q);
    LiveWordsNone(s, p, q);
    forall h, a | 0 <= h < |cut| && a in s.live && cut[h] <= a < UpTo(cut, h, q)
      ensures Dest(marks, table, a) == into[h].start + s.LiveWords(cut[h], a)
    {
      assert a < UpTo(cut, h, p);
    }
  }

  // ----- overflow -----

  /** A destination chunk never overflows from the objects of the source chunk at its position. */
  lemma NoOverflowAtHome(s: Space, into: seq<Chunk>, marks: seq<bv32>, cut0: nat, c: nat, lo: nat, hi: nat)
    requires s.Valid() && c < |s.chunks| && MarksAgree(s, marks, s.chunks[c]) && Roomy(s, into)
    requires s.chunks[c].start <= cut0 <= lo < s.chunks[c].end
    requires lo <= hi <= s.chunks[c].end
    requires BlackFrom(s, marks, s.chunks[c], lo)
    ensures into[c].start + s.LiveWords(cut0, lo) + MarkCount(marks, lo, hi) <= into[c].UsableEnd()
  {
    var ch := s.chunks[c];
    CountAtMostLive(s, marks, ch, lo, hi);
    LiveWordsSplit(s, cut0, lo, hi);
    LiveWordsSplit(s, cut0, hi, ch.end);
    forall b | b in s.live && cut0 <= b < ch.end
      ensures b + s.Size(b) <= ch.UsableEnd()
    {
      assert s.ObjectOk(ch, b);
    }
    LiveWordsDense(s, cut0, ch.end, ch.UsableEnd());
  }

  /** The same marks, except that the words of [lo, hi) have lost theirs. */
  ghost predicate Zapped(marks: seq<bv32>, marks': seq<bv32>, lo: nat, hi: nat) {
    && |marks'| == |marks|
    && (forall w: nat :: Marked(marks', w) <==> Marked(marks, w) && !(lo <= w < hi))
  }

  /** Clearing marks inside one live object, past its first word, keeps the marks in agreement. */
  lemma ZapKeepsAgreement(s: Space, marks: seq<bv32>, marks': seq<bv32>, ch: Chunk, last: nat, lo: nat, hi: nat,
                          other: Chunk)
    requires ch.end <= |s.mem| && s.ObjectOk(ch, last) && last in s.live && s.live <= s.objs
    requires last < lo && hi <= last + s.Size(last)
    requires Zapped(marks, marks', lo, hi)
    requires other.start < other.end <= |s.mem| && MarksAgree(s, marks, other)
    ensures MarksAgree(s, marks', other)
  {
    hide Marked;
    forall a | a in s.objs && other.start <= a < other.end
      ensures ObjectMarks(s, marks', a)
    {
      assert ObjectMarks(s, marks, a);
    }
  }

  /** After a cut at `cut` the marks describe exactly the objects that start at or after it. */
  lemma BlackAfterCut(s: Space, marks: seq<bv32>, marks': seq<bv32>, ch: Chunk, lo: nat, last: nat, cut: nat)
    requires s.Tiled(ch) && s.live <= s.objs && MarksAgree(s, marks, ch)
    requires ch.start <= lo <= last < cut < ch.UsableEnd()
    requires BlackFrom(s, marks, ch, lo)
    requires last in s.live && (forall a :: last < a < cut ==> a !in s.live)
    requires Zapped(marks, marks', cut, last + s.Size(last))
    ensures BlackFrom(s, marks', ch, cut)
  {
    hide Marked;
    assert s.ObjectOk(ch, last);
    var end := last + s.Size(last);
    var b := s.NextBoundary(ch, cut);
    if cut !in s.objs {
      var o := s.Owner(ch, cut);
      assert s.ObjectOk(ch, o);
      assert b == o + s.Size(o);
      assert last <= o;
      if o in s.live {
        assert o == last;
      } else {
        assert ObjectMarks(s, marks, o);
      }
    }
    assert NoneMarked(marks', cut, b);
    forall a | a in s.live && cut <= a < ch.end
      ensures AllMarked(marks', a, a + s.Size(a))
    {
      assert a !in {last};
      assert end <= a;
      assert AllMarked(marks, a, a + s.Size(a));
    }
  }

  /** The objects of a stretch up to `q` end where the last one of them ends. */
  lemma EndOfStretch(s: Space, lo: nat, last: nat, q: nat)
    requires lo <= last < q <= |s.mem| && last in s.live
    requires forall a :: last < a < q ==> a !in s.live
    ensures s.LiveWords(lo, q) == s.LiveWords(lo, last) + s.Size(last)
  {
    LiveWordsSplit(s, lo, last, q);
    LiveWordsObject(s, last, q);
  }

  /** Packed in order, an earlier live object ends no later than a later one starts. */
  lemma PackedInOrder(s: Space, lo: nat, a: nat, b: nat)
    requires lo <= a < b < |s.mem| && a in s.live
    ensures s.LiveWords(lo, a) + s.Size(a) <= s.LiveWords(lo, b)
  {
    LiveWordsSplit(s, lo, a, b);
    LiveWordsSplit(s, a, a + 1, b);
    assert s.LiveWords(a, a) == 0;
  }

  /** After an overflow some live object of the stretch has a destination past the limit. */
  lemma OverflowingObject(s: Space, marks: seq<bv32>, ch: Chunk, base: int, lo: nat, hi: nat, limit: int)
      returns (y: nat)
    requires s.Tiled(ch) && s.live <= s.objs && MarksAgree(s, marks, ch)
    requires ch.start <= lo < hi <= ch.end && BlackFrom(s, marks, ch, lo)
    requires base <= limit < base + MarkCount(marks, lo, hi)
    ensures y in s.live && lo <= y < hi && base + s.LiveWords(lo, y) + s.Size(y) > limit
  {
    CountAtMostLive(s, marks, ch, lo, hi);
    OverflowWitness(s, lo, hi, limit - base);
    y :| y in s.live && lo <= y < hi && s.LiveWords(lo, y) + s.Size(y) > limit - base;
  }

  /** An object that does not fit comes after one that does. */
  lemma DoesNotFitIsLater(s: Space, base: int, lo: nat, last: nat, y: nat, limit: int)
    requires lo <= last < |s.mem| && lo <= y < |s.mem| && last in s.live && y in s.live
    requires base + s.LiveWords(lo, last) + s.Size(last) <= limit < base + s.LiveWords(lo, y) + s.Size(y)
    ensures last < y
  {
    hide Space.LiveWords;
    if y < last { PackedInOrder(s, lo, y, last); }
  }

  /**
   After an overflow the walk from a line whose last live object fits stops at an object that does not
   fit, in a later line that the table already covers.
   */
  lemma StopsInsideTable(s: Space, marks: seq<bv32>, table: seq<int>, ch: Chunk, base: int, lo: nat, hi: nat,
                         limit: int,
                         line: nat, first: nat, last: nat, x: nat)
    requires s.Tiled(ch) && s.live <= s.objs && MarksAgree(s, marks, ch)
    requires ch.start <= lo <= line && line + 32 <= hi <= ch.end && lo % 32 == 0 && hi % 32 == 0
    requires BlackFrom(s, marks, ch, lo) && Filled(marks, table, base, lo, hi)
    requires base <= limit < base + MarkCount(marks, lo, hi)
    requires line <= first <= last < line + 32 && last in s.live && (forall a :: last < a < line + 32 ==> a !in s.live)
    requires Dest(marks, table, last) + s.Size(last) <= limit
    requires first <= x < ch.end && s.Boundary(ch, x)
    requires forall a :: a in s.live && first <= a < x ==> Dest(marks, table, a) + s.Size(a) <= limit
    requires x in s.objs ==> x in s.live && Dest(marks, table, x) + s.Size(x) > limit
    ensures x in s.live && line + 32 <= x < hi
  {
    hide Dest, MarkCount, Filled, BlackFrom, MarksAgree, Space.Tiled, Space.LiveWords;
    WithinMemory(s, ch);
    var y := OverflowingObject(s, marks, ch, base, lo, hi, limit);
    DestInFilled(s, marks, table, ch, base, lo, hi, y);
    DestInFilled(s, marks, table, ch, base, lo, hi, last);
    DoesNotFitIsLater(s, base, lo, last, y, limit);
    assert x <= y;
    DestInFilled(s, marks, table, ch, base, lo, hi, x);
    DoesNotFitIsLater(s, base, lo, last, x, limit);
  }

  lemma WithinMemory(s: Space, ch: Chunk)
    requires s.Tiled(ch)
    ensures ch.end <= |s.mem| && ch.UsableEnd() !in s.objs
  {
  }

  lemma PlanFrame(s: Space, into: seq<Chunk>, marks: seq<bv32>, table: seq<int>, marks': seq<bv32>, table': seq<int>,
                  tops: seq<int>,
                  cut: seq<nat>, p: nat, dest: Destination)
    requires PlanState(s, into, marks, table, tops, cut, p, dest)
    requires |table'| == |table| == |marks'|
    requires forall l :: 0 <= l < |table| && 32 * l < p ==> table'[l] == table[l]
    requires forall w: nat :: w < p ==> Marked(marks', w) == Marked(marks, w)
    ensures PlanState(s, into, marks', table', tops, cut, p, dest)
  {
    hide Marked;
    SettledFrame(s, into, marks, table, marks', table', cut, p);
  }

  lemma PlanZapFrame(s: Space, into: seq<Chunk>, marks: seq<bv32>, marks': seq<bv32>, table: seq<int>, tops: seq<int>,
                     cut: seq<nat>, p: nat, hi: nat, dest: Destination)
    requires PlanState(s, into, marks, table, tops, cut, p, dest)
    requires Zapped(marks, marks', p, hi)
    ensures PlanState(s, into, marks', table, tops, cut, p, dest)
  {
    hide Marked;
    PlanFrame(s, into, marks, table, marks', table, tops, cut, p, dest);
  }

  /** Closing the current chunk after the last live object that starts before q. */
  lemma ClosePlan(s: Space, into: seq<Chunk>, marks: seq<bv32>, table: seq<int>, tops: seq<int>, cut: seq<nat>,
                  ch: Chunk, lo: nat, hi: nat, last: nat, q: nat, end: int, dest: Destination)
    requires s.Tiled(ch) && s.live <= s.objs && MarksAgree(s, marks, ch)
    requires ch.start <= lo <= last < q <= hi <= ch.end && lo % 32 == 0 && hi % 32 == 0
    requires PlanState(s, into, marks, table, tops, cut, lo, dest)
    requires BlackFrom(s, marks, ch, lo)
    requires Filled(marks, table, dest.address, lo, hi)
    requires last in s.live && (forall a :: last < a < q ==> a !in s.live)
    requires end == Dest(marks, table, last) + s.Size(last) <= dest.limit
    requires dest.chunk + 1 < |into|
    requires Roomy(s, into) ==> dest.chunk + 1 < |s.chunks| && s.chunks[dest.chunk + 1].start <= q
    ensures dest.chunk < |tops|
    ensures var n := into[dest.chunk + 1];
            PlanState(s, into, marks, table, tops[dest.chunk := end], cut + [q], q,
                      Destination(dest.chunk + 1, n.start, n.UsableEnd()))
  {
    assert ch.end <= |s.mem| && |tops| == |into|;
    hide Dest, MarkCount, Filled, BlackFrom, MarksAgree, Space.Tiled, Space.LiveWords, PlanState, Roomy;
    DestInFilled(s, marks, table, ch, dest.address, lo, hi, last);
    EndOfStretch(s, lo, last, q);
    ExtendPlan(s, into, marks, table, tops, cut, ch, lo, hi, q, dest);
    NextChunk(s, into, marks, table, tops, cut, q, dest.(address := end));
  }

  /** The whole rest of the source chunk fits. */
  lemma FinishPlan(s: Space, into: seq<Chunk>, marks: seq<bv32>, table: seq<int>, tops: seq<int>, cut: seq<nat>,
                   ch: Chunk, lo: nat, dest: Destination)
    requires s.Tiled(ch) && s.live <= s.objs && MarksAgree(s, marks, ch)
    requires ch.start <= lo < ch.end && lo % 32 == 0 && ch.end % 32 == 0
    requires PlanState(s, into, marks, table, tops, cut, lo, dest)
    requires BlackFrom(s, marks, ch, lo)
    requires Filled(marks, table, dest.address, lo, ch.end)
    requires dest.address + MarkCount(marks, lo, ch.end) <= dest.limit
    ensures PlanState(s, into, marks, table, tops, cut, ch.end,
              dest.(address := dest.address + MarkCount(marks, lo, ch.end)))
  {
    CountAtMostLive(s, marks, ch, lo, ch.end);
    ExtendPlan(s, into, marks, table, tops, cut, ch, lo, ch.end, ch.end, dest);
  }
}
