/** What moving the live objects of a space to their planned destinations means. */
module Compaction {
  import opened Bits
  import opened GcHeap
  import opened Numbers
  import opened Plan
  import opened PlanTheorems
  import opened PlanSteps

  predicate InOldSpace(s: Space, x: int) {
    exists c :: 0 <= c < |s.chunks| && s.chunks[c].start <= x < s.chunks[c].end
  }

  /** A pointer into the space is redirected to the destination of its target; other words are kept. */
  ghost function FixWord(s: Space, marks: seq<bv32>, table: seq<int>, w: Word): Word {
    if w.Pointer? && InOldSpace(s, w.target) then Pointer(Dest(marks, table, w.target)) else w
  }

  /** The words of live object a, with pointers redirected, are at its destination. */
  ghost predicate Copied(s: Space, marks: seq<bv32>, table: seq<int>, mem: seq<Word>, a: nat)
    requires a < |s.mem|
  {
    && a + s.Size(a) <= |s.mem| && 0 <= Dest(marks, table, a) && Dest(marks, table, a) + s.Size(a) <= |mem|
    && (forall w {:trigger WordCopied(s, marks, table, mem, a, w)} :: a <= w < a + s.Size(a) ==>
           WordCopied(s, marks, table, mem, a, w))
  }

  ghost predicate WordCopied(s: Space, marks: seq<bv32>, table: seq<int>, mem: seq<Word>, a: nat, w: nat)
    requires a <= w < |s.mem| && 0 <= Dest(marks, table, a) + (w - a) < |mem|
  {
    mem[Dest(marks, table, a) + (w - a)] == FixWord(s, marks, table, s.mem[w])
  }

  ghost predicate SentinelsKept(s: Space, mem: seq<Word>) {
    forall c :: 0 <= c < |s.chunks| ==> 0 <= s.chunks[c].UsableEnd() < |mem| && mem[s.chunks[c].UsableEnd()] == Sentinel
  }

  /** Live objects below p have been moved; memory from p on, and the sentinels, are untouched. */
  ghost predicate Moved(s: Space, marks: seq<bv32>, table: seq<int>, mem: seq<Word>, p: nat) {
    && |mem| == |s.mem|
    && (forall w :: p <= w < |mem| ==> mem[w] == s.mem[w])
    && SentinelsKept(s, mem)
    && (forall a :: a in s.live && a < p ==> a < |s.mem| && Copied(s, marks, table, mem, a))
  }

  lemma MoveStarts(s: Space, marks: seq<bv32>, table: seq<int>, p: nat)
    requires s.Valid() && 0 < |s.chunks| && p <= s.chunks[0].start
    ensures Moved(s, marks, table, s.mem, p)
    ensures forall a :: a in s.live ==> p <= a
  {
    forall a | a in s.live
      ensures p <= a
    {
      var c := ChunkIndex(s, a);
      assert s.chunks[0].start <= s.chunks[c].start;
    }
    forall c | 0 <= c < |s.chunks|
      ensures s.mem[s.chunks[c].UsableEnd()] == Sentinel
    {
      assert s.Tiled(s.chunks[c]);
    }
  }

  /** Dead memory is skipped. */
  lemma SkipDead(s: Space, marks: seq<bv32>, table: seq<int>, mem: seq<Word>, p: nat, q: nat)
    requires Moved(s, marks, table, mem, p) && p <= q
    requires forall a :: p <= a < q ==> a !in s.live
    ensures Moved(s, marks, table, mem, q)
  {
  }

  /** Two memories that differ only in [lo, hi). */
  ghost predicate SameOutside(mem: seq<Word>, mem': seq<Word>, lo: int, hi: int) {
    && |mem'| == |mem|
    && (forall w :: 0 <= w < |mem| && !(lo <= w < hi) ==> mem'[w] == mem[w])
  }

  /** Moving one more object disturbs neither the objects already moved nor those still to come. */
  lemma MoveOne(s: Space, marks: seq<bv32>, table: seq<int>, tops: seq<int>, cut: seq<nat>, mem: seq<Word>,
                mem': seq<Word>, a: nat)
    requires s.Valid() && FinalPlan(s, s.chunks, marks, table, tops, cut) && a in s.live && a < |s.mem|
    requires Moved(s, marks, table, mem, a)
    requires Copied(s, marks, table, mem', a)
    requires SameOutside(mem, mem', Dest(marks, table, a), Dest(marks, table, a) + s.Size(a))
    ensures Moved(s, marks, table, mem', a + s.Size(a))
  {
    hide Dest, FixWord, FinalPlan, Copied, Space.Valid, SentinelsKept;
    DestinationsMoveDown(s, s.chunks, marks, table, tops, cut, a);
    MoveKeepsSentinels(s, marks, table, tops, cut, mem, mem', a);
    forall b | b in s.live && b < a + s.Size(a)
      ensures b < |s.mem| && Copied(s, marks, table, mem', b)
    {
      if b < a {
        StaysCopied(s, marks, table, tops, cut, mem, mem', a, b);
      } else if a < b {
        LiveDisjoint(s, a, b);
      }
    }
  }

  lemma StaysCopied(s: Space, marks: seq<bv32>, table: seq<int>, tops: seq<int>, cut: seq<nat>, mem: seq<Word>,
                    mem': seq<Word>, a: nat, b: nat)
    requires s.Valid() && FinalPlan(s, s.chunks, marks, table, tops, cut) && a in s.live && b in s.live
    requires b < a < |s.mem|
    requires Copied(s, marks, table, mem, b)
    requires SameOutside(mem, mem', Dest(marks, table, a), Dest(marks, table, a) + s.Size(a))
    ensures Copied(s, marks, table, mem', b)
  {
    hide Dest, FixWord, FinalPlan, Space.Valid;
    DestinationsInOrder(s, s.chunks, marks, table, tops, cut, b, a);
    forall w | b <= w < b + s.Size(b)
      ensures WordCopied(s, marks, table, mem', b, w)
    {
      assert WordCopied(s, marks, table, mem, b, w);
    }
  }

  lemma MoveKeepsSentinels(s: Space, marks: seq<bv32>, table: seq<int>, tops: seq<int>, cut: seq<nat>, mem: seq<Word>,
                           mem': seq<Word>, a: nat)
    requires s.Valid() && FinalPlan(s, s.chunks, marks, table, tops, cut) && a in s.live && a < |s.mem|
    requires SentinelsKept(s, mem)
    requires SameOutside(mem, mem', Dest(marks, table, a), Dest(marks, table, a) + s.Size(a))
    ensures SentinelsKept(s, mem')
  {
    hide Dest, FinalPlan, Space.LiveWords, Space.Tiled;
    var h := PlacedInOneChunk(s, s.chunks, marks, table, tops, cut, a);
    forall c | 0 <= c < |s.chunks|
      ensures 0 <= s.chunks[c].UsableEnd() < |mem'| && mem'[s.chunks[c].UsableEnd()] == Sentinel
    {
      assert mem[s.chunks[c].UsableEnd()] == Sentinel;
      assert c < h ==> s.chunks[c].end <= s.chunks[h].start;
      assert h < c ==> s.chunks[h].end <= s.chunks[c].start;
    }
  }

  // ----- the bump pointer of the visitor -----

  /** The visitor has placed every live object below p and stands in chunk `dest.chunk`. */
  ghost predicate Cursor(s: Space, tops: seq<int>, cut: seq<nat>, dest: Destination, p: nat) {
    && dest.chunk < |s.chunks| == |tops| && |cut| == |s.chunks| + 1
    && dest.limit == tops[dest.chunk]
    && CursorIn(s, s.chunks[dest.chunk].start, cut[dest.chunk], cut[dest.chunk + 1], dest.address, p)
  }

  ghost predicate CursorIn(s: Space, start: nat, lo: nat, hi: nat, address: int, p: nat) {
    && lo <= p && lo <= hi <= |s.mem|
    && address == start + s.LiveWords(lo, Min(p, hi))
    && (forall a :: a in s.live && hi <= a ==> p <= a)
  }

  lemma CutOrder(cut: seq<nat>, k: nat, h: nat, a: nat)
    requires forall h, i :: 0 <= h < i < |cut| ==> cut[h] <= cut[i]
    requires k < |cut| && h + 1 < |cut| && cut[k] <= a < cut[h + 1]
    ensures k <= h
  {
  }

  /** While the planned chunk of the next object lies ahead, the visitor stands at the top of its chunk. */
  lemma CursorAtTop(s: Space, marks: seq<bv32>, table: seq<int>, tops: seq<int>, cut: seq<nat>, dest: Destination,
                    a: nat, h: nat)
    requires FinalPlan(s, s.chunks, marks, table, tops, cut) && Cursor(s, tops, cut, dest, a)
    requires dest.chunk < h < |s.chunks| && cut[h] <= a
    ensures dest.address == dest.limit && cut[dest.chunk + 1] <= a
  {
    hide Dest, Space.LiveWords;
    var k := dest.chunk;
    assert cut[k + 1] <= cut[h];
    assert PackedChunk(s, marks, table, tops[k], s.chunks[k], cut[k], cut[k + 1]);
  }

  /** When the next object does not fit below the top, the plan has put it into a later chunk. */
  lemma CursorMovesOn(s: Space, marks: seq<bv32>, table: seq<int>, tops: seq<int>, cut: seq<nat>, dest: Destination,
                      a: nat)
    requires s.Valid() && FinalPlan(s, s.chunks, marks, table, tops, cut) && a in s.live && a < |s.mem|
    requires Cursor(s, tops, cut, dest, a)
    requires dest.address + s.Size(a) > dest.limit
    ensures dest.chunk + 1 < |s.chunks|
    ensures Cursor(s, tops, cut, Destination(dest.chunk + 1, s.chunks[dest.chunk + 1].start, tops[dest.chunk + 1]), a)
  {
    hide Dest, Space.Valid, Space.LiveWords;
    var k := dest.chunk;
    var h := PlacedInOneChunk(s, s.chunks, marks, table, tops, cut, a);
    CutOrder(cut, k, h, a);
    if k == h {
      // It is planned for this chunk, so it would have fit.
      assert false;
    }
    CursorAtTop(s, marks, table, tops, cut, dest, a, h);
    assert cut[k + 1] <= cut[k + 2];
    assert k + 2 < |s.chunks| ==> cut[k + 2] <= cut[|s.chunks|];
    LiveWordsNone(s, cut[k + 1], Min(a, cut[k + 2]));
  }

  /** When it fits, the visitor stands exactly at the planned destination. */
  lemma CursorIsDestination(s: Space, marks: seq<bv32>, table: seq<int>, tops: seq<int>, cut: seq<nat>,
                            dest: Destination, a: nat)
    requires s.Valid() && FinalPlan(s, s.chunks, marks, table, tops, cut) && a in s.live && a < |s.mem| && 0 < s.Size(a)
    requires Cursor(s, tops, cut, dest, a)
    requires dest.address + s.Size(a) <= dest.limit
    ensures dest.address == Dest(marks, table, a) && a < cut[dest.chunk + 1]
  {
    hide Dest, Space.Valid, Space.LiveWords;
    var k := dest.chunk;
    var h := PlacedInOneChunk(s, s.chunks, marks, table, tops, cut, a);
    CutOrder(cut, k, h, a);
    if k < h {
      CursorAtTop(s, marks, table, tops, cut, dest, a, h);
      assert false;
    }
  }

  lemma CursorPlaces(s: Space, tops: seq<int>, cut: seq<nat>, dest: Destination, a: nat)
    requires s.Valid() && a in s.live && a < |s.mem| && 0 < s.Size(a) && a + s.Size(a) <= |s.mem|
    requires Cursor(s, tops, cut, dest, a) && a < cut[dest.chunk + 1]
    ensures Cursor(s, tops, cut, dest.(address := dest.address + s.Size(a)), a + s.Size(a))
  {
    hide Space.Valid;
    var k := dest.chunk;
    var q := Min(a + s.Size(a), cut[k + 1]);
    forall b | b in s.live && a < b
      ensures a + s.Size(a) <= b
    {
      LiveDisjoint(s, a, b);
    }
    LiveWordsSplit(s, cut[k], a, q);
    LiveWordsObject(s, a, q);
  }

  lemma CursorSkips(s: Space, tops: seq<int>, cut: seq<nat>, dest: Destination, p: nat, q: nat)
    requires Cursor(s, tops, cut, dest, p) && p <= q <= |s.mem|
    requires forall a :: p <= a < q ==> a !in s.live
    ensures Cursor(s, tops, cut, dest, q)
  {
    var k := dest.chunk;
    LiveWordsSplit(s, cut[k], Min(p, cut[k + 1]), Min(q, cut[k + 1]));
    LiveWordsNone(s, Min(p, cut[k + 1]), Min(q, cut[k + 1]));
  }

  // ----- marks while visiting -----

  /** The marks of all object words are as planned; only sentinel words may have gained one. */
  ghost predicate SameObjectMarks(s: Space, planned: seq<bv32>, marks: seq<bv32>) {
    && |marks| == |planned|
    && (forall c, w: nat :: 0 <= c < |s.chunks| && s.chunks[c].start <= w < s.chunks[c].UsableEnd() ==>
          Marked(marks, w) == Marked(planned, w))
  }

  /** Marking sentinels does not change any destination. */
  lemma SameDestination(s: Space, planned: seq<bv32>, marks: seq<bv32>, table: seq<int>, x: nat)
    requires s.ChunksOk() && SameObjectMarks(s, planned, marks) && InOldSpace(s, x)
    requires |table| == |planned| && |s.mem| <= 32 * |planned|
    ensures x < |s.mem| && Dest(marks, table, x) == Dest(planned, table, x)
  {
    hide Marked, Ones, Dest;
    LineBefore(s, planned, marks, x);
    hide SameObjectMarks, Space.ChunksOk, InOldSpace;
    DestByCount(planned, table, x);
    DestByCount(marks, table, x);
    MarkCountFrame(planned, marks, 32 * (x / 32), x);
  }

  lemma LineBefore(s: Space, planned: seq<bv32>, marks: seq<bv32>, x: nat)
    requires s.ChunksOk() && SameObjectMarks(s, planned, marks) && InOldSpace(s, x)
    ensures x < |s.mem| && |marks| == |planned|
    ensures forall w :: 32 * (x / 32) <= w < x ==> Marked(marks, w) == Marked(planned, w)
  {
    hide Marked;
    var c :| 0 <= c < |s.chunks| && s.chunks[c].start <= x < s.chunks[c].end;
    assert s.chunks[c].start <= 32 * (x / 32);
  }

  /** The last word of a chunk is the last bit of its mark word. */
  lemma SentinelMarked(s: Space, planned: seq<bv32>, marks: seq<bv32>, marks': seq<bv32>, c: nat)
    requires s.ChunksOk() && SameObjectMarks(s, planned, marks) && c < |s.chunks| && |s.mem| <= 32 * |planned|
    requires marks' == marks[s.chunks[c].UsableEnd() / 32 := SetLast(marks[s.chunks[c].UsableEnd() / 32])]
    ensures SameObjectMarks(s, planned, marks') && Marked(marks', s.chunks[c].UsableEnd())
  {
    hide Bit, SetLast;
    var e := s.chunks[c].UsableEnd();
    assert e % 32 == 31;
    SetLastBits(marks[e / 32], 31);
    forall d, w: nat | 0 <= d < |s.chunks| && s.chunks[d].start <= w < s.chunks[d].UsableEnd()
      ensures Marked(marks', w) == Marked(planned, w)
    {
      if w / 32 == e / 32 {
        SetLastBits(marks[e / 32], w % 32);
        assert w != e;
      }
    }
  }

  // ----- the visitor's state -----

  /** The addresses where the live objects below p have been put. */
  ghost function Placed(s: Space, marks: seq<bv32>, table: seq<int>, p: nat): set<int> {
    set a | a in s.live && a < p :: Dest(marks, table, a)
  }

  /** The card of address d has a recorded start, which is not before d. */
  ghost predicate RecordedAt(starts: seq<int>, d: int) {
    0 <= d && d / 32 < |starts| && starts[d / 32] != NO_START && d % 32 <= starts[d / 32]
  }

  /** The recorded starts are, card by card, the last of the objects that have been put there; no card lacks one. */
  ghost predicate StartsPlaced(s: Space, marks: seq<bv32>, table: seq<int>, starts: seq<int>, p: nat) {
    && NamesPlaced(s, marks, table, starts, p)
    && AllRecorded(s, marks, table, starts, p)
  }

  /** A recorded start is the address of an object that has been put there. */
  ghost predicate NamesPlaced(s: Space, marks: seq<bv32>, table: seq<int>, starts: seq<int>, p: nat) {
    forall l {:trigger starts[l]} :: 0 <= l < |starts| && s.ChunkCard(l) ==>
      starts[l] == NO_START || (0 <= starts[l] < 32 && 32 * l + starts[l] in Placed(s, marks, table, p))
  }

  /** The card of every object that has been put somewhere has a recorded start, and no later object is there. */
  ghost predicate AllRecorded(s: Space, marks: seq<bv32>, table: seq<int>, starts: seq<int>, p: nat) {
    forall a {:trigger Dest(marks, table, a)} :: a in s.live && a < p ==> RecordedAt(starts, Dest(marks, table, a))
  }

  /** What the plan and the marks guarantee while the objects are moved. */
  ghost predicate Planned(s: Space, marks: seq<bv32>, table: seq<int>, tops: seq<int>, cut: seq<nat>) {
    && s.Valid() && |s.mem| <= 32 * |marks| && |table| == |marks|
    && (forall a :: a in s.live ==> a < |s.mem| && 2 <= s.Size(a))
    && (forall c :: 0 <= c < |s.chunks| ==> MarksAgree(s, marks, s.chunks[c]))
    && FinalPlan(s, s.chunks, marks, table, tops, cut)
  }

  /** Everything below p has been visited. */
  ghost predicate Visited(s: Space, planned: seq<bv32>, table: seq<int>, tops: seq<int>, cut: seq<nat>,
                          marks: seq<bv32>, starts: seq<int>, mem: seq<Word>, dest: Destination, used: nat, p: nat)
  {
    && Planned(s, planned, table, tops, cut) && p <= |s.mem|
    && SameObjectMarks(s, planned, marks)
    && StartsPlaced(s, planned, table, starts, p)
    && Moved(s, planned, table, mem, p)
    && Cursor(s, tops, cut, dest, p)
    && used == s.LiveWords(cut[0], p)
  }

  /** A run of dead objects can be skipped. */
  lemma VisitDead(s: Space, planned: seq<bv32>, table: seq<int>, tops: seq<int>, cut: seq<nat>,
                  marks: seq<bv32>, starts: seq<int>, mem: seq<Word>, dest: Destination, used: nat, p: nat, q: nat)
    requires Visited(s, planned, table, tops, cut, marks, starts, mem, dest, used, p) && p <= q <= |s.mem|
    requires forall a :: p <= a < q ==> a !in s.live
    ensures Visited(s, planned, table, tops, cut, marks, starts, mem, dest, used, q)
  {
    hide Planned, SameObjectMarks, StartsPlaced, Moved, Cursor, Dest;
    VisitOrigin(s, planned, table, tops, cut, dest, p);
    SkipDead(s, planned, table, mem, p, q);
    CursorSkips(s, tops, cut, dest, p, q);
    LiveWordsSplit(s, cut[0], p, q);
    LiveWordsNone(s, p, q);
    assert Placed(s, planned, table, q) == Placed(s, planned, table, p);
    StartsSkip(s, planned, table, starts, p, q);
  }

  lemma StartsSkip(s: Space, marks: seq<bv32>, table: seq<int>, starts: seq<int>, p: nat, q: nat)
    requires StartsPlaced(s, marks, table, starts, p) && p <= q
    requires forall a :: p <= a < q ==> a !in s.live
    ensures StartsPlaced(s, marks, table, starts, q)
  {
    hide Dest, RecordedAt;
    StartsGrow(s, marks, table, starts, p, q);
  }

  lemma VisitOrigin(s: Space, planned: seq<bv32>, table: seq<int>, tops: seq<int>, cut: seq<nat>, dest: Destination,
                    p: nat)
    requires Planned(s, planned, table, tops, cut) && Cursor(s, tops, cut, dest, p)
    ensures |cut| == |s.chunks| + 1 && 0 < |s.chunks| && cut[0] <= p
  {
    hide Dest, Space.Valid, MarksAgree;
  }

  lemma StartsGrow(s: Space, marks: seq<bv32>, table: seq<int>, starts: seq<int>, p: nat, q: nat)
    requires NamesPlaced(s, marks, table, starts, p) && p <= q
    ensures NamesPlaced(s, marks, table, starts, q)
  {
    hide Dest;
    forall l | 0 <= l < |starts| && s.ChunkCard(l) && starts[l] != NO_START
      ensures 0 <= starts[l] < 32 && 32 * l + starts[l] in Placed(s, marks, table, q)
    {
      assert 32 * l + starts[l] in Placed(s, marks, table, p);
    }
  }

  lemma RecordPlaced(s: Space, marks: seq<bv32>, table: seq<int>, starts: seq<int>, starts': seq<int>, a: nat, d: nat)
    requires StartsPlaced(s, marks, table, starts, a) && a in s.live && a < |s.mem| && 0 < s.Size(a)
    requires d == Dest(marks, table, a) && d / 32 < |starts| && starts' == starts[d / 32 := d % 32]
    requires forall b :: b in s.live && b < a ==> Dest(marks, table, b) < d
    requires forall b :: a < b < a + s.Size(a) ==> b !in s.live
    ensures StartsPlaced(s, marks, table, starts', a + s.Size(a))
  {
    hide Dest, NamesPlaced, RecordedAt;
    StartsGrow(s, marks, table, starts, a, a + s.Size(a));
    assert d in Placed(s, marks, table, a + s.Size(a));
    NamesOneMore(s, marks, table, starts, starts', a + s.Size(a), d);
    forall b | b in s.live && b < a + s.Size(a)
      ensures RecordedAt(starts', Dest(marks, table, b))
    {
      if b < a { assert RecordedAt(starts, Dest(marks, table, b)); }
      RecordedLater(starts, starts', Dest(marks, table, b), d);
    }
  }

  lemma NamesOneMore(s: Space, marks: seq<bv32>, table: seq<int>, starts: seq<int>, starts': seq<int>, p: nat, d: nat)
    requires NamesPlaced(s, marks, table, starts, p) && d in Placed(s, marks, table, p)
    requires d / 32 < |starts| && starts' == starts[d / 32 := d % 32]
    ensures NamesPlaced(s, marks, table, starts', p)
  {
    hide Dest, Placed;
    assert 32 * (d / 32) + d % 32 == d;
  }

  lemma RecordedLater(starts: seq<int>, starts': seq<int>, x: int, d: nat)
    requires d / 32 < |starts| && starts' == starts[d / 32 := d % 32]
    requires x == d || (x < d && RecordedAt(starts, x))
    ensures RecordedAt(starts', x)
  {
    if x / 32 == d / 32 {
      assert x % 32 <= d % 32;
    }
  }

  /** The objects before a live object go to lower addresses, and none starts inside it. */
  lemma BeforeAndInside(s: Space, planned: seq<bv32>, table: seq<int>, tops: seq<int>, cut: seq<nat>, a: nat)
    requires Planned(s, planned, table, tops, cut) && a in s.live && a < |s.mem|
    ensures forall b :: b in s.live && b < a ==> Dest(planned, table, b) < Dest(planned, table, a)
    ensures forall b :: a < b < a + s.Size(a) ==> b !in s.live
  {
    hide Dest, MarksAgree, FinalPlan, Space.Valid;
    forall b | b in s.live && b < a
      ensures Dest(planned, table, b) < Dest(planned, table, a)
    {
      DestinationsInOrder(s, s.chunks, planned, table, tops, cut, b, a);
    }
    forall b | a < b < a + s.Size(a)
      ensures b !in s.live
    {
      if b in s.live { LiveDisjoint(s, a, b); }
    }
  }

  /** Placing the next live object at its destination. */
  lemma VisitLive(s: Space, planned: seq<bv32>, table: seq<int>, tops: seq<int>, cut: seq<nat>, marks: seq<bv32>,
                  starts: seq<int>, starts': seq<int>, mem: seq<Word>, mem': seq<Word>, dest: Destination, used: nat,
                      a: nat)
    requires Visited(s, planned, table, tops, cut, marks, starts, mem, dest, used, a)
    requires a in s.live && a < |s.mem| && a + s.Size(a) <= |s.mem| && dest.address == Dest(planned, table, a)
    requires a < cut[dest.chunk + 1]
    requires 0 <= dest.address && dest.address / 32 < |starts|
    requires starts' == starts[dest.address / 32 := dest.address % 32]
    requires Copied(s, planned, table, mem', a)
    requires SameOutside(mem, mem', dest.address, dest.address + s.Size(a))
    ensures Visited(s, planned, table, tops, cut, marks, starts', mem',
                    dest.(address := dest.address + s.Size(a)), used + s.Size(a), a + s.Size(a))
  {
    PlannedLive(s, planned, table, tops, cut, a);
    hide Planned, SameObjectMarks, StartsPlaced, Moved, Cursor, Dest, Copied, SameOutside, FinalPlan, Space.Valid,
         Space.LiveWords;
    VisitOrigin(s, planned, table, tops, cut, dest, a);
    BeforeAndInside(s, planned, table, tops, cut, a);
    RecordPlaced(s, planned, table, starts, starts', a, dest.address);
    MoveOne(s, planned, table, tops, cut, mem, mem', a);
    CursorPlaces(s, tops, cut, dest, a);
    OneMoreLive(s, cut[0], a);
  }

  lemma OneMoreLive(s: Space, lo: nat, a: nat)
    requires s.Valid() && lo <= a && a in s.live && a < |s.mem| && 0 < s.Size(a) && a + s.Size(a) <= |s.mem|
    ensures s.LiveWords(lo, a + s.Size(a)) == s.LiveWords(lo, a) + s.Size(a)
  {
    hide Space.Valid;
    forall b | b in s.live && a < b
      ensures a + s.Size(a) <= b
    {
      LiveDisjoint(s, a, b);
    }
    LiveWordsSplit(s, lo, a, a + s.Size(a));
    LiveWordsObject(s, a, a + s.Size(a));
  }

  lemma PlannedLive(s: Space, planned: seq<bv32>, table: seq<int>, tops: seq<int>, cut: seq<nat>, a: nat)
    requires Planned(s, planned, table, tops, cut) && a in s.live
    ensures s.Valid() && FinalPlan(s, s.chunks, planned, table, tops, cut) && a < |s.mem| && 2 <= s.Size(a)
  {
  }

  /** The first marked word after a dead object is the next live object, or the sentinel. */
  lemma NextMarkIsObject(s: Space, planned: seq<bv32>, marks: seq<bv32>, ch: Chunk, a: nat, n: nat)
    requires s.Tiled(ch) && s.live <= s.objs && MarksAgree(s, planned, ch)
    requires forall w: nat :: ch.start <= w < ch.UsableEnd() ==> Marked(marks, w) == Marked(planned, w)
    requires ch.start <= a < n <= ch.UsableEnd() && a in s.objs
    requires NoneMarked(marks, a, n) && (n < ch.UsableEnd() ==> Marked(marks, n))
    ensures n < ch.UsableEnd() ==> n in s.live
    ensures forall b :: a <= b < n ==> b !in s.live
  {
    hide Marked;
    forall b | a <= b < n && b in s.objs
      ensures b !in s.live
    {
      assert ObjectMarks(s, planned, b);
    }
    if n < ch.UsableEnd() {
      var o := s.Owner(ch, n);
      assert ObjectMarks(s, planned, o);
      assert s.ObjectOk(ch, a);
      assert a <= o;
    }
  }

  /** Skipping from a dead object to the next mark. */
  lemma SkipToNext(s: Space, planned: seq<bv32>, table: seq<int>, tops: seq<int>, cut: seq<nat>,
                   marks: seq<bv32>, starts: seq<int>, mem: seq<Word>, dest: Destination, used: nat, c: nat, a: nat,
                       n: nat)
    requires Visited(s, planned, table, tops, cut, marks, starts, mem, dest, used, a) && c < |s.chunks|
    requires s.chunks[c].start <= a < n <= s.chunks[c].UsableEnd() && a in s.objs
    requires NoneMarked(marks, a, n) && (n < s.chunks[c].UsableEnd() ==> Marked(marks, n))
    ensures Visited(s, planned, table, tops, cut, marks, starts, mem, dest, used, n)
    ensures s.Boundary(s.chunks[c], n)
  {
    hide SameObjectMarks, StartsPlaced, Moved, Cursor, FinalPlan, Marked, MarksAgree, Space.Tiled;
    ChunkMarksAsPlanned(s, planned, marks, c);
    NextMarkIsObject(s, planned, marks, s.chunks[c], a, n);
    VisitDead(s, planned, table, tops, cut, marks, starts, mem, dest, used, a, n);
  }

  lemma ChunkMarksAsPlanned(s: Space, planned: seq<bv32>, marks: seq<bv32>, c: nat)
    requires SameObjectMarks(s, planned, marks) && c < |s.chunks|
    ensures forall w: nat :: s.chunks[c].start <= w < s.chunks[c].UsableEnd() ==> Marked(marks, w) == Marked(planned, w)
  {
  }

  /** A marked object start is a live object, read from memory that has not been overwritten yet. */
  lemma MarkedIsLive(s: Space, planned: seq<bv32>, table: seq<int>, tops: seq<int>, cut: seq<nat>,
                     marks: seq<bv32>, starts: seq<int>, mem: seq<Word>, dest: Destination, used: nat, c: nat, a: nat)
    requires Visited(s, planned, table, tops, cut, marks, starts, mem, dest, used, a) && c < |s.chunks|
    requires s.chunks[c].start <= a < s.chunks[c].UsableEnd() && a in s.objs && Marked(marks, a)
    ensures a in s.live && a < |s.mem| == |mem| && mem[a] == s.mem[a] && mem[a].Header? && mem[a].size == s.Size(a)
    ensures 2 <= s.Size(a) && a + s.Size(a) <= s.chunks[c].UsableEnd() && s.Boundary(s.chunks[c], a + s.Size(a))
    ensures forall w :: a <= w < a + s.Size(a) ==> mem[w] == s.mem[w]
    ensures |s.mem| <= 32 * |planned|
  {
    hide Marked, StartsPlaced, Cursor, FinalPlan, SentinelsKept, Copied, SameObjectMarks, MarksAgree, Space.Tiled,
         Moved, Space.ObjectOk;
    ChunkMarksAsPlanned(s, planned, marks, c);
    MarkedStart(s, planned, s.chunks[c], a);
    Untouched(s, planned, table, mem, a);
  }

  lemma MarkedStart(s: Space, marks: seq<bv32>, ch: Chunk, a: nat)
    requires s.Tiled(ch) && MarksAgree(s, marks, ch) && ch.start <= a < ch.UsableEnd() && a in s.objs
    requires Marked(marks, a)
    ensures a in s.live && a < |s.mem| && s.mem[a].Header? && 0 < s.Size(a)
    ensures a + s.Size(a) <= ch.UsableEnd() && s.Boundary(ch, a + s.Size(a))
  {
    hide Marked;
    assert s.ObjectOk(ch, a);
    assert ObjectMarks(s, marks, a);
  }

  lemma Untouched(s: Space, marks: seq<bv32>, table: seq<int>, mem: seq<Word>, p: nat)
    requires Moved(s, marks, table, mem, p)
    ensures |mem| == |s.mem| && forall w :: p <= w < |mem| ==> mem[w] == s.mem[w]
  {
  }

  lemma VisitMovesOn(s: Space, planned: seq<bv32>, table: seq<int>, tops: seq<int>, cut: seq<nat>,
                     marks: seq<bv32>, starts: seq<int>, mem: seq<Word>, dest: Destination, used: nat, a: nat)
    requires Visited(s, planned, table, tops, cut, marks, starts, mem, dest, used, a)
    requires a in s.live && a < |s.mem| && dest.address + s.Size(a) > dest.limit
    ensures dest.chunk + 1 < |s.chunks| == |tops|
    ensures Visited(s, planned, table, tops, cut, marks, starts, mem,
                    Destination(dest.chunk + 1, s.chunks[dest.chunk + 1].start, tops[dest.chunk + 1]), used, a)
  {
    PlannedLive(s, planned, table, tops, cut, a);
    hide Planned, SameObjectMarks, StartsPlaced, Moved, FinalPlan, Space.Valid, Space.LiveWords;
    CursorMovesOn(s, planned, table, tops, cut, dest, a);
  }

  /** The bump pointer of the visitor and the planned destination agree. */
  lemma VisitArrives(s: Space, planned: seq<bv32>, table: seq<int>, tops: seq<int>, cut: seq<nat>,
                     marks: seq<bv32>, starts: seq<int>, mem: seq<Word>, dest: Destination, used: nat, a: nat)
    requires Visited(s, planned, table, tops, cut, marks, starts, mem, dest, used, a)
    requires a in s.live && a < |s.mem| && dest.address + s.Size(a) <= dest.limit
    ensures dest.chunk < |s.chunks| && |cut| == |s.chunks| + 1
    ensures 0 <= dest.address == Dest(planned, table, a) <= a && a < cut[dest.chunk + 1]
    ensures dest.address == Dest(marks, table, a)
  {
    PlannedLive(s, planned, table, tops, cut, a);
    hide SameObjectMarks, StartsPlaced, Moved, FinalPlan, Dest, Space.LiveWords, MarksAgree;
    CursorIsDestination(s, planned, table, tops, cut, dest, a);
    DestinationsMoveDown(s, s.chunks, planned, table, tops, cut, a);
    var c := ChunkIndex(s, a);
    assert InOldSpace(s, a);
    SameDestination(s, planned, marks, table, a);
  }

  lemma VisitedShape(s: Space, planned: seq<bv32>, table: seq<int>, tops: seq<int>, cut: seq<nat>,
                     marks: seq<bv32>, starts: seq<int>, mem: seq<Word>, dest: Destination, used: nat, p: nat)
    requires Visited(s, planned, table, tops, cut, marks, starts, mem, dest, used, p)
    ensures s.ChunksOk() && SameObjectMarks(s, planned, marks)
    ensures dest.chunk < |s.chunks|
    ensures p < |s.mem| == |mem| ==> mem[p] == s.mem[p]
  {
  }

  lemma ChunkInMemory(s: Space, planned: seq<bv32>, table: seq<int>, tops: seq<int>, cut: seq<nat>,
                      marks: seq<bv32>, starts: seq<int>, mem: seq<Word>, dest: Destination, used: nat, p: nat, c: nat)
    requires Visited(s, planned, table, tops, cut, marks, starts, mem, dest, used, p) && c < |s.chunks|
    ensures s.chunks[c].start < s.chunks[c].end <= |s.mem|
  {
  }

  /** Moving the words and then redirecting the pointers yields a copy with redirected pointers. */
  lemma CopyComplete(s: Space, planned: seq<bv32>, table: seq<int>, mem: seq<Word>, mem1: seq<Word>, mem2: seq<Word>,
                     a: nat, d: nat)
    requires a < |s.mem| && a + s.Size(a) <= |s.mem| == |mem| && d == Dest(planned, table, a) && d + s.Size(a) <= |mem|
    requires forall w :: a <= w < a + s.Size(a) ==> mem[w] == s.mem[w]
    requires SameOutside(mem, mem1, d, d + s.Size(a)) && SameOutside(mem1, mem2, d, d + s.Size(a))
    requires forall w :: a <= w < a + s.Size(a) ==> mem1[d + (w - a)] == mem[w]
    requires forall w :: d <= w < d + s.Size(a) ==> mem2[w] == FixWord(s, planned, table, mem1[w])
    ensures Copied(s, planned, table, mem2, a) && SameOutside(mem, mem2, d, d + s.Size(a))
  {
    hide Dest, FixWord;
  }

  lemma VisitStarts(s: Space, planned: seq<bv32>, table: seq<int>, tops: seq<int>, cut: seq<nat>, starts: seq<int>,
                    p: nat)
    requires Planned(s, planned, table, tops, cut) && p == s.chunks[0].start
    requires forall l :: 0 <= l < |starts| && s.ChunkCard(l) ==> starts[l] == NO_START
    ensures Visited(s, planned, table, tops, cut, planned, starts, s.mem, Destination(0, s.chunks[0].start, tops[0]),
              0, p)
  {
    assert PackedChunk(s, planned, table, tops[0], s.chunks[0], cut[0], cut[1]);
    assert cut[0] <= cut[1];
    hide Dest, Marked, MarksAgree, Space.Tiled;
    MoveStarts(s, planned, table, p);
  }

  /** Forgetting starts does no harm on the cards where no object has been put. */
  lemma ClearedStarts(s: Space, marks: seq<bv32>, table: seq<int>, starts: seq<int>, starts': seq<int>, p: nat)
    requires StartsPlaced(s, marks, table, starts, p)
    requires |starts'| == |starts|
    requires forall l :: 0 <= l < |starts| ==> starts'[l] == starts[l] || starts'[l] == NO_START
    requires forall a :: a in s.live && a < p ==> KeptAt(starts, starts', Dest(marks, table, a))
    ensures StartsPlaced(s, marks, table, starts', p)
  {
    hide Dest;
    forall a | a in s.live && a < p
      ensures RecordedAt(starts', Dest(marks, table, a))
    {
      assert RecordedAt(starts, Dest(marks, table, a)) && KeptAt(starts, starts', Dest(marks, table, a));
    }
  }

  /** What is recorded for the card of d is unchanged. */
  ghost predicate KeptAt(starts: seq<int>, starts': seq<int>, d: int) {
    |starts'| == |starts| && (0 <= d && d / 32 < |starts| ==> starts'[d / 32] == starts[d / 32])
  }

  /** The card of d keeps its start when a chunk at or above p, and so above d, is cleared. */
  lemma KeptBelow(s: Space, planned: seq<bv32>, table: seq<int>, tops: seq<int>, cut: seq<nat>, starts: seq<int>,
                  starts': seq<int>, c: nat, a: nat)
    requires Planned(s, planned, table, tops, cut) && c < |s.chunks| && a in s.live && a < s.chunks[c].start
    requires StartsCleared(starts, starts', s.chunks[c])
    ensures KeptAt(starts, starts', Dest(planned, table, a))
  {
    hide Dest, MarksAgree, FinalPlan, Space.Tiled;
    DestinationsMoveDown(s, s.chunks, planned, table, tops, cut, a);
  }

  /** The recorded starts of a chunk have been forgotten, and no others. */
  ghost predicate StartsCleared(starts: seq<int>, starts': seq<int>, ch: Chunk) {
    |starts'| == |starts| &&
    forall l :: 0 <= l < |starts| ==>
      starts'[l] == if ch.start / 32 <= l < ch.end / 32 then NO_START else starts[l]
  }

  /** Entering a chunk: its recorded starts are cleared and its sentinel is marked. */
  lemma VisitChunkStart(s: Space, planned: seq<bv32>, table: seq<int>, tops: seq<int>, cut: seq<nat>, marks: seq<bv32>,
                        marks': seq<bv32>,
                        starts: seq<int>, starts': seq<int>, mem: seq<Word>, dest: Destination, used: nat, p: nat,
                            c: nat)
    requires Visited(s, planned, table, tops, cut, marks, starts, mem, dest, used, p) && c < |s.chunks|
    requires p == s.chunks[c].start && StartsCleared(starts, starts', s.chunks[c])
    requires 0 <= s.chunks[c].UsableEnd() && s.chunks[c].UsableEnd() / 32 < |marks|
    requires marks' == marks[s.chunks[c].UsableEnd() / 32 := SetLast(marks[s.chunks[c].UsableEnd() / 32])]
    ensures Visited(s, planned, table, tops, cut, marks', starts', mem, dest, used, p)
    ensures Marked(marks', s.chunks[c].UsableEnd())
  {
    hide StartsPlaced, Moved, Cursor, SameObjectMarks, FinalPlan, MarksAgree, Space.Tiled, SetLast, Marked, KeptAt,
         Dest;
    forall a | a in s.live && a < p
      ensures KeptAt(starts, starts', Dest(planned, table, a))
    {
      KeptBelow(s, planned, table, tops, cut, starts, starts', c, a);
    }
    ClearedStarts(s, planned, table, starts, starts', p);
    SentinelMarked(s, planned, marks, marks', c);
  }

  lemma ReadsSentinel(s: Space, planned: seq<bv32>, table: seq<int>, tops: seq<int>, cut: seq<nat>,
                      marks: seq<bv32>, starts: seq<int>, mem: seq<Word>, dest: Destination, used: nat, p: nat, c: nat)
    requires Visited(s, planned, table, tops, cut, marks, starts, mem, dest, used, p) && c < |s.chunks|
    requires s.chunks[c].start <= p <= s.chunks[c].UsableEnd() && s.Boundary(s.chunks[c], p)
    ensures p < |mem| == |s.mem| && (mem[p] == Sentinel <==> p == s.chunks[c].UsableEnd())
  {
    hide Visited, Planned, Space.Valid, Moved;
    VisitedPlanned(s, planned, table, tops, cut, marks, starts, mem, dest, used, p);
    ChunkInMemory(s, planned, table, tops, cut, marks, starts, mem, dest, used, p, c);
    VisitedMoved(s, planned, table, tops, cut, marks, starts, mem, dest, used, p);
    Untouched(s, planned, table, mem, p);
    BoundaryWord(s, c, p);
  }

  lemma VisitedMoved(s: Space, planned: seq<bv32>, table: seq<int>, tops: seq<int>, cut: seq<nat>,
                     marks: seq<bv32>, starts: seq<int>, mem: seq<Word>, dest: Destination, used: nat, p: nat)
    requires Visited(s, planned, table, tops, cut, marks, starts, mem, dest, used, p)
    ensures Moved(s, planned, table, mem, p)
  {
  }

  lemma BoundaryWord(s: Space, c: nat, p: nat)
    requires s.Valid() && c < |s.chunks|
    requires s.chunks[c].start <= p <= s.chunks[c].UsableEnd() && s.Boundary(s.chunks[c], p)
    ensures p < |s.mem| && (s.mem[p] == Sentinel <==> p == s.chunks[c].UsableEnd())
  {
    assert s.Tiled(s.chunks[c]);
    if p in s.objs { assert s.ObjectOk(s.chunks[c], p); }
  }

  lemma FirstInChunk(s: Space, planned: seq<bv32>, table: seq<int>, tops: seq<int>, cut: seq<nat>, c: nat)
    requires Planned(s, planned, table, tops, cut) && c < |s.chunks|
    ensures s.Boundary(s.chunks[c], s.chunks[c].start)
  {
    assert s.Tiled(s.chunks[c]);
  }

  lemma VisitedPlanned(s: Space, planned: seq<bv32>, table: seq<int>, tops: seq<int>, cut: seq<nat>,
                       marks: seq<bv32>, starts: seq<int>, mem: seq<Word>, dest: Destination, used: nat, p: nat)
    requires Visited(s, planned, table, tops, cut, marks, starts, mem, dest, used, p)
    ensures Planned(s, planned, table, tops, cut) && s.Valid()
  {
  }

  /** Past a chunk there is nothing to move until the next chunk starts. */
  lemma VisitGap(s: Space, planned: seq<bv32>, table: seq<int>, tops: seq<int>, cut: seq<nat>,
                 marks: seq<bv32>, starts: seq<int>, mem: seq<Word>, dest: Destination, used: nat, p: nat, c: nat)
    requires Visited(s, planned, table, tops, cut, marks, starts, mem, dest, used, p) && c < |s.chunks|
    requires p == SettledBefore(s, c)
    ensures Visited(s, planned, table, tops, cut, marks, starts, mem, dest, used, s.chunks[c].start)
  {
    VisitedPlanned(s, planned, table, tops, cut, marks, starts, mem, dest, used, p);
    ChunkInMemory(s, planned, table, tops, cut, marks, starts, mem, dest, used, p, c);
    assert p <= s.chunks[c].start by { assert c > 0 ==> s.chunks[c - 1].end <= s.chunks[c].start; }
    hide Visited, Planned, Space.Valid;
    forall a | a in s.live && a < s.chunks[c].start
      ensures a < p
    {
      NothingBetween(s, c, a);
    }
    VisitDead(s, planned, table, tops, cut, marks, starts, mem, dest, used, p, s.chunks[c].start);
  }

  lemma ChunkBegin(s: Space, planned: seq<bv32>, table: seq<int>, tops: seq<int>, cut: seq<nat>,
                   marks: seq<bv32>, starts: seq<int>, mem: seq<Word>, dest: Destination, used: nat, p: nat, c: nat)
    requires Visited(s, planned, table, tops, cut, marks, starts, mem, dest, used, p) && c < |s.chunks|
    requires p == s.chunks[c].start
    ensures s.chunks[c].start <= s.chunks[c].UsableEnd() && s.Boundary(s.chunks[c], p)
    ensures p < |mem| == |s.mem| && (mem[p] == Sentinel <==> p == s.chunks[c].UsableEnd())
  {
    VisitedPlanned(s, planned, table, tops, cut, marks, starts, mem, dest, used, p);
    ChunkInMemory(s, planned, table, tops, cut, marks, starts, mem, dest, used, p, c);
    hide Visited, Planned, Space.Valid;
    FirstInChunk(s, planned, table, tops, cut, c);
    ReadsSentinel(s, planned, table, tops, cut, marks, starts, mem, dest, used, p, c);
  }

  lemma SentinelDead(s: Space, c: nat)
    requires s.Valid() && c < |s.chunks|
    ensures s.chunks[c].UsableEnd() !in s.live
  {
    assert s.Tiled(s.chunks[c]);
  }

  lemma ChunkDone(s: Space, planned: seq<bv32>, table: seq<int>, tops: seq<int>, cut: seq<nat>,
                  marks: seq<bv32>, starts: seq<int>, mem: seq<Word>, dest: Destination, used: nat, c: nat)
    requires c < |s.chunks| && 0 <= s.chunks[c].UsableEnd()
    requires Visited(s, planned, table, tops, cut, marks, starts, mem, dest, used, s.chunks[c].UsableEnd())
    ensures Visited(s, planned, table, tops, cut, marks, starts, mem, dest, used, s.chunks[c].end)
  {
    hide Visited, Planned, Space.Valid;
    VisitedPlanned(s, planned, table, tops, cut, marks, starts, mem, dest, used, s.chunks[c].UsableEnd());
    ChunkInMemory(s, planned, table, tops, cut, marks, starts, mem, dest, used, s.chunks[c].UsableEnd(), c);
    SentinelDead(s, c);
    VisitDead(s, planned, table, tops, cut, marks, starts, mem, dest, used, s.chunks[c].UsableEnd(), s.chunks[c].end);
  }
}
