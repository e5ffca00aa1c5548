/** The compaction planner of the old space (GCMetadata::CalculateObjectDestinations and its helpers). */
module Planner {
  import opened Bits
  import opened GcHeap
  import opened Numbers
  import opened Plan
  import opened PlanFullness
  import opened PlanSteps
  import opened PlanTheorems

  class GcMetadata {
    /** One mark word, one destination and one start offset per line; one compaction top per chunk. */
    const marks: array<bv32>
    const table: array<int>
    const starts: array<int>
    const tops: array<int>

    /** The arrays cover the memory of the space, and there is a top for every destination chunk. */
    ghost predicate ShapeInto(s: Space, into: seq<Chunk>) {
      && marks.Length == table.Length == starts.Length
      && |s.mem| <= 32 * marks.Length
      && tops.Length == |into|
      && table != starts && table != tops && starts != tops
      && marks as object != table && marks as object != starts && marks as object != tops
    }

    ghost predicate Shape(s: Space) {
      ShapeInto(s, s.chunks)
    }

    function IsMarked(a: nat): (r: bool)
      requires a / 32 < marks.Length
      reads marks
      ensures r == Marked(marks[..], a)
    {
      Test(marks[a / 32], a % 32)
    }

    /** Table entry of the line plus a population count of the marks to the left of the object. */
    function GetDestination(a: nat): (r: int)
      requires a / 32 < marks.Length && a / 32 < table.Length
      reads marks, table
      ensures r == Dest(marks[..], table[..], a)
    {
      hide Ones, CountBelow;
      table[a / 32] + CountBelow(marks[a / 32], a % 32)
    }

    /**
     Where the last live object that starts before `limit` ends, in the destination and in the source,
     walking from the start recorded for `line`.
     */
    method EndOfDestinationOfLastLiveObjectStartingBefore(s: Space, ghost ch: Chunk, line: nat, limit: nat)
        returns (end: Option<int>, srcEnd: nat, ghost last: nat)
      requires Walkable(s, ch, marks[..], table[..], starts[..])
      requires ch.start <= line < ch.end && line % 32 == 0
      requires line < limit <= ch.end
      ensures starts[line / 32] == NO_START ==> end == None
      ensures starts[line / 32] != NO_START && end == None ==>
                forall a :: line + starts[line / 32] <= a < limit ==> a !in s.live
      ensures end.Some? ==>
                && 0 <= starts[line / 32] && line + starts[line / 32] <= last < limit && last in s.live
                && (forall a :: last < a < limit ==> a !in s.live)
                && end.value == Dest(marks[..], table[..], last) + s.Size(last)
                && srcEnd == last + s.Size(last)
    {
      hide Marked, Dest, GetDestination, IsMarked;
      end, srcEnd, last := None, 0, 0;
      if starts[line / 32] == NO_START {
        return;
      }
      var first := line + starts[line / 32];
      assert first in s.objs;
      var obj: nat := first;
      while s.mem[obj] != Sentinel && obj < limit
        invariant first <= obj < ch.end && s.Boundary(ch, obj)
        invariant end == None ==> forall a :: first <= a < obj ==> a !in s.live
        invariant end.Some? ==>
                && first <= last < obj && last < limit && last in s.live
                && (forall a :: last < a < obj ==> a !in s.live)
                && end.value == Dest(marks[..], table[..], last) + s.Size(last)
                && srcEnd == last + s.Size(last)
        decreases ch.end - obj
      {
        assert s.ObjectOk(ch, obj);
        assert ObjectMarks(s, marks[..], obj);
        var size := s.Size(obj);
        if IsMarked(obj) {
          end := Some(GetDestination(obj) + size);
          srcEnd := obj + size;
          last := obj;
        }
        obj := obj + size;
      }
      assert obj == ch.UsableEnd() || obj in s.objs;
      if obj in s.objs { assert s.ObjectOk(ch, obj); }
    }

    /** The last line whose objects all fit below the destination limit, walking from the start recorded for `line`. */
    method LastLineThatFits(s: Space, ghost ch: Chunk, line: nat, destLimit: int) returns (lastLine: int, ghost x: nat)
      requires Walkable(s, ch, marks[..], table[..], starts[..])
      requires ch.start <= line < ch.end && line % 32 == 0
      requires starts[line / 32] != NO_START
      ensures line + starts[line / 32] <= x < ch.end && s.Boundary(ch, x)
      ensures forall a :: a in s.live && line + starts[line / 32] <= a < x ==>
                Dest(marks[..], table[..], a) + s.Size(a) <= destLimit
      ensures x in s.objs ==> x in s.live && Dest(marks[..], table[..], x) + s.Size(x) > destLimit
      ensures lastLine == if x in s.objs then LineOf(x) - 32 else LineOf(x)
    {
      hide Marked, Dest, GetDestination, IsMarked;
      ghost var first := line + starts[line / 32];
      var obj: nat := line + starts[line / 32];
      var dest := GetDestination(obj);
      assert s.ObjectOk(ch, obj);
      while s.mem[obj] != Sentinel && (dest + s.Size(obj) <= destLimit || !IsMarked(obj))
        invariant first <= obj < ch.end && s.Boundary(ch, obj)
        invariant dest == Dest(marks[..], table[..], obj)
        invariant forall a :: a in s.live && first <= a < obj ==>
                    Dest(marks[..], table[..], a) + s.Size(a) <= destLimit
        decreases ch.end - obj
      {
        assert s.ObjectOk(ch, obj);
        assert ObjectMarks(s, marks[..], obj);
        obj := obj + s.Size(obj);
        dest := GetDestination(obj);
      }
      x := obj;
      if obj in s.objs {
        assert s.ObjectOk(ch, obj);
        assert ObjectMarks(s, marks[..], obj);
      }
      lastLine := LineOf(obj);
      if s.mem[obj] != Sentinel {
        lastLine := lastLine - 32;
      }
    }

    /** The fast loop: fill in one table entry per line until the source ends or the destination overflows. */
    method FillTable(srcStart: nat, srcLimit: nat, base: int, destLimit: int) returns (src: nat, address: int)
      requires marks.Length == table.Length && marks as object != table && srcStart <= srcLimit <= 32 * table.Length
      requires srcStart % 32 == 0 && srcLimit % 32 == 0
      modifies table
      ensures srcStart <= src <= srcLimit && src % 32 == 0
      ensures Filled(marks[..], table[..], base, srcStart, src)
      ensures address == base + MarkCount(marks[..], srcStart, src)
      ensures address <= destLimit ==> src == srcLimit
      ensures address > destLimit && base <= destLimit ==> srcStart < src
      ensures forall l :: 0 <= l < table.Length && !(srcStart / 32 <= l < srcLimit / 32) ==> table[l] == old(table[l])
    {
      hide Marked, Ones, PopCount;
      ghost var m := marks[..];
      src, address := srcStart, base;
      while address <= destLimit && src != srcLimit
        invariant srcStart <= src <= srcLimit && src % 32 == 0
        invariant marks[..] == m
        invariant Filled(m, table[..], base, srcStart, src)
        invariant address == base + MarkCount(m, srcStart, src)
        invariant address > destLimit && base <= destLimit ==> srcStart < src
        invariant forall l :: 0 <= l < table.Length && !(srcStart / 32 <= l < srcLimit / 32) ==>
                  table[l] == old(table[l])
        decreases srcLimit - src
      {
        ghost var before := table[..];
        table[src / 32] := address;
        FilledStep(m, before, table[..], base, srcStart, src);
        address := address + PopCount(marks[src / 32]);
        MarkCountInLine(m, src / 32, 32);
        MarkCountSplit(m, srcStart, src, src + 32);
        src := src + 32;
      }
    }

    method EndOfLastInLine(s: Space, ghost ch: Chunk, line: nat) returns (end: Option<int>, ghost last: nat)
      requires Walkable(s, ch, marks[..], table[..], starts[..])
      requires ch.start <= line && line + 32 <= ch.end && line % 32 == 0
      ensures EndOfLine(s, marks[..], table[..], starts[..], line, end, last)
    {
      var srcEndOfLast;
      end, srcEndOfLast, last := EndOfDestinationOfLastLiveObjectStartingBefore(s, ch, line, line + 32);
    }

    /**
     Step back to the last line with a recorded start whose last live object still fits, or to the start of the
     stretch if there is none.
     */
    method StepBack(s: Space, ghost ch: Chunk, srcStart: nat, srcEnd: nat, destLimit: int)
        returns (found: bool, src: nat, address: int, ghost last: nat)
      requires Walkable(s, ch, marks[..], table[..], starts[..])
      requires ch.start <= srcStart < srcEnd <= ch.end && srcStart % 32 == 0 && srcEnd % 32 == 0
      ensures srcStart <= src < srcEnd && src % 32 == 0 && address == table[src / 32]
      ensures !found ==> src == srcStart
      ensures TooLong(s, marks[..], table[..], starts[..], if found then src + 32 else srcStart, srcEnd, destLimit)
      ensures found ==>
                && 0 <= starts[src / 32] && src + starts[src / 32] <= last < src + 32 && last in s.live
                && (forall a :: last < a < src + 32 ==> a !in s.live)
                && Dest(marks[..], table[..], last) + s.Size(last) <= destLimit
    {
      assert starts.Length == table.Length && ch.end <= 32 * table.Length && ch.end % 32 == 0 && ch.start % 32 == 0;
      hide Marked, Dest, GetDestination, IsMarked, Walkable, TooLong, EndOfLine;
      ghost var m, t, st := marks[..], table[..], starts[..];
      NoLines(s, m, t, st, srcEnd, destLimit);
      src := srcEnd;
      address := 0;
      var end: Option<int> := None;
      last := 0;
      while end == None || end.value > destLimit
        invariant srcStart <= src <= srcEnd && src % 32 == 0
        invariant src == srcEnd ==> end == None
        invariant src < srcEnd ==> address == table[src / 32] && EndOfLine(s, m, t, st, src, end, last)
        invariant TooLong(s, m, t, st, if src < srcEnd then src + 32 else srcEnd, srcEnd, destLimit)
        decreases src
      {
        if src < srcEnd { LineTooLong(s, m, t, st, src, srcEnd, destLimit, end, last); }
        if src == srcStart {
          return false, src, address, last;
        }
        LineBack(srcStart, src, srcEnd);
        src := src - 32;
        address := table[src / 32];
        end, last := EndOfLastInLine(s, ch, src);
      }
      found := true;
      LineFits(s, m, t, st, src, end, last);
    }

    /** Forget the marks of the first `overhang` words of a line. */
    method ZapOverhang(line: nat, overhang: nat)
      requires line < marks.Length && overhang < 32
      modifies marks
      ensures Zapped(old(marks[..]), marks[..], 32 * line, 32 * line + overhang)
    {
      hide Bit, ClearLow;
      ghost var before := marks[..];
      marks[line] := ClearLow(marks[line], overhang);
      ghost var after := marks[..];
      forall w: nat
        ensures Marked(after, w) <==> Marked(before, w) && !(32 * line <= w < 32 * line + overhang)
      {
        if w / 32 == line {
          ClearLowBits(before[line], overhang, w % 32);
        }
      }
    }

    /** Forget the marks of the tail, from src on, of an object that ends at srcEnd and has been moved. */
    method ZapTail(src: nat, srcEnd: nat)
      requires src % 32 == 0 && srcEnd < src + 32 && src / 32 < marks.Length
      modifies marks
      ensures Zapped(old(marks[..]), marks[..], src, srcEnd)
    {
      hide Marked;
      var overhang := srcEnd - src;
      if overhang > 0 {
        assert (srcEnd - 1) / 32 == src / 32 && 32 * (src / 32) == src;
        ZapOverhang((srcEnd - 1) / 32, overhang);
      }
    }

    /**
     Plan from srcStart until the source chunk ends or the destination chunk is full. In the second case the
     destination chunk is closed, either where it stood or after the last line that fits, unless it is the last one:
     then there is no room.
     */
    method PlanStretch(s: Space, into: seq<Chunk>, c: nat, srcStart: nat, from: Destination, ghost cut0: seq<nat>)
        returns (room: bool, done: bool, src: nat, dest: Destination, ghost cut: seq<nat>)
      requires ShapeInto(s, into)
      requires Working(s, into, c, marks[..], table[..], starts[..], tops[..], srcStart, from, cut0)
      modifies marks, table, tops
      ensures Working(s, into, c, marks[..], table[..], starts[..], tops[..], src, dest, cut)
      ensures room && done ==> src == s.chunks[c].end
      ensures room && !done ==>
                dest.chunk == from.chunk + 1 && cut == cut0 + [src] && from.chunk < |into| == tops.Length
      ensures room && !done ==> ClosedAt(s, starts[..], c, tops[from.chunk], from.limit, srcStart, src)
      ensures done || !room ==> cut == cut0 && tops[..] == old(tops[..])
      ensures forall h :: 0 <= h < tops.Length && h != from.chunk ==> tops[h] == old(tops[h])
      ensures !room ==> !Roomy(s, into) && NoRoom(s, into, c, src, dest)
      ensures cut0 <= cut
      ensures MarksKept(s, c, old(marks[..]), marks[..])
    {
      hide Working, Walkable, Marked, Filled, MarkCount, Dest, MarksKept, Roomy, TooLong;
      ghost var m, st, tp := marks[..], starts[..], tops[..];
      WorkingDest(s, into, c, m, table[..], st, tp, srcStart, from, cut0);
      var ch := s.chunks[c];
      var address, found;
      ghost var last;
      src, address := FillTable(srcStart, ch.end, from.address, from.limit);
      ghost var t := table[..];
      assert marks[..] == m && starts[..] == st && tops[..] == tp;
      TableFilled(s, into, c, m, old(table[..]), t, st, tp, srcStart, from, cut0);
      if address <= from.limit {
        StretchDone(s, into, c, m, t, st, tp, srcStart, from, cut0);
        NoMarksChanged(s, c, m);
        return true, true, src, from.(address := address), cut0;
      }
      OverflowsEarlier(s, into, c, m, t, st, tp, srcStart, src, from, cut0);
      if from.chunk + 1 == |into| {
        OutOfChunks(s, into, c, m, t, st, tp, srcStart, src, from, cut0);
        NoMarksChanged(s, c, m);
        return false, false, srcStart, from, cut0;
      }
      var srcEnd := src;
      assert Walkable(s, ch, m, t, st) by { WorkingWalk(s, into, c, m, t, st, tp, srcStart, from, cut0); }
      found, src, address, last := StepBack(s, ch, srcStart, srcEnd, from.limit);
      assert marks[..] == m && table[..] == t && starts[..] == st;
      if found {
        src, dest, cut := CutStretch(s, into, c, srcStart, srcEnd, src, last, from, cut0);
      } else {
        // Not even the first line fits: the whole stretch moves to the next destination chunk.
        StretchTight(s, into, c, m, t, st, tp, srcStart, srcEnd, from, cut0);
        StretchBase(m, t, from.address, srcStart, srcEnd);
        tops[from.chunk] := address;
        assert tops[..] == tp[from.chunk := from.address];
        StretchSkipped(s, into, c, m, t, st, tp, srcStart, from, cut0);
        NoMarksChanged(s, c, m);
        dest, cut := NextDestination(into, from), cut0 + [src];
      }
      room, done := true, false;
    }

    /** Close the destination chunk after the last line that fits and forget the marks of an overhanging object. */
    method CutStretch(s: Space, into: seq<Chunk>, c: nat, srcStart: nat, srcEnd: nat, line: nat, ghost last: nat,
                      from: Destination, ghost cut0: seq<nat>)
        returns (src: nat, dest: Destination, ghost cut: seq<nat>)
      requires ShapeInto(s, into)
      requires Working(s, into, c, marks[..], table[..], starts[..], tops[..], srcStart, from, cut0)
      requires srcStart <= line && line + 32 <= srcEnd <= s.chunks[c].end && line % 32 == 0 && srcEnd % 32 == 0
      requires Filled(marks[..], table[..], from.address, srcStart, srcEnd)
      requires from.address + MarkCount(marks[..], srcStart, srcEnd) > from.limit
      requires from.chunk + 1 < |into| && (Roomy(s, into) ==> from.chunk < c)
      requires 0 <= starts[line / 32] && line + starts[line / 32] <= last < line + 32 && last in s.live
      requires forall a :: last < a < line + 32 ==> a !in s.live
      requires Dest(marks[..], table[..], last) + s.Size(last) <= from.limit
      modifies marks, tops
      ensures Working(s, into, c, marks[..], table[..], starts[..], tops[..], src, dest, cut)
      ensures dest.chunk == from.chunk + 1 && cut == cut0 + [src] && from.chunk < |into| == tops.Length
      ensures srcStart < src && ClosedAt(s, starts[..], c, tops[from.chunk], from.limit, srcStart, src)
      ensures forall h :: 0 <= h < tops.Length && h != from.chunk ==> tops[h] == old(tops[h])
      ensures MarksKept(s, c, old(marks[..]), marks[..])
    {
      hide Working, Marked, Filled, MarkCount, Dest, Walkable, Zapped, MarksKept;
      ghost var m, t, st, tp := marks[..], table[..], starts[..], tops[..];
      WorkingDest(s, into, c, m, t, st, tp, srcStart, from, cut0);
      var end, srcEndOfLast;
      ghost var last2;
      src, end, srcEndOfLast, last2 := FindCut(s, into, c, srcStart, srcEnd, line, last, from, cut0);
      tops[from.chunk] := end;
      ZapTail(src, srcEndOfLast);
      assert tops[..] == tp[from.chunk := end];
      StretchCut(s, into, c, m, marks[..], t, st, tp, srcStart, srcEnd, last2, src, end, from, cut0);
      ZappedInside(s, c, m, marks[..], src, srcEndOfLast);
      dest, cut := NextDestination(into, from), cut0 + [src];
    }

    /** Where to cut: after the last line that fits, given one that does; and where the last object before it ends. */
    method FindCut(s: Space, into: seq<Chunk>, c: nat, srcStart: nat, srcEnd: nat, line: nat, ghost last: nat,
                   from: Destination, ghost cut0: seq<nat>)
        returns (src: nat, end: int, srcEndOfLast: nat, ghost last2: nat)
      requires ShapeInto(s, into)
      requires Working(s, into, c, marks[..], table[..], starts[..], tops[..], srcStart, from, cut0)
      requires srcStart <= line && line + 32 <= srcEnd <= s.chunks[c].end && line % 32 == 0 && srcEnd % 32 == 0
      requires Filled(marks[..], table[..], from.address, srcStart, srcEnd)
      requires from.address + MarkCount(marks[..], srcStart, srcEnd) > from.limit
      requires 0 <= starts[line / 32] && line + starts[line / 32] <= last < line + 32 && last in s.live
      requires forall a :: last < a < line + 32 ==> a !in s.live
      requires Dest(marks[..], table[..], last) + s.Size(last) <= from.limit
      ensures srcStart <= last2 < src && src + 32 <= srcEnd && src % 32 == 0
      ensures last2 in s.live && (forall a :: last2 < a < src ==> a !in s.live) && last2 < |s.mem|
      ensures end == Dest(marks[..], table[..], last2) + s.Size(last2) <= from.limit
      ensures srcEndOfLast == last2 + s.Size(last2) < src + 32
      ensures s.chunks[c].end <= |s.mem| && end + s.LiveWords(src, src + 32) > from.limit
    {
      hide Working, Marked, Filled, MarkCount, Dest, Walkable, LineOf;
      ghost var m, t, st, tp := marks[..], table[..], starts[..], tops[..];
      WorkingDest(s, into, c, m, t, st, tp, srcStart, from, cut0);
      ghost var first := line + starts[line / 32];
      var ch := s.chunks[c];
      WorkingWalk(s, into, c, m, t, st, tp, srcStart, from, cut0);
      var lastLine, found;
      ghost var x;
      lastLine, x := LastLineThatFits(s, ch, line, from.limit);
      CutPoint(s, into, c, m, t, st, tp, srcStart, srcEnd, from, cut0, line, first, last, x);
      CutLine(line, srcEnd, x);
      src := lastLine + 32;
      found, srcEndOfLast, last2 := EndOfDestinationOfLastLiveObjectStartingBefore(s, ch, line, src);
      assert found.Some?;
      end := found.value;
      LineIsFull(s, into, c, m, t, st, tp, srcStart, srcEnd, from, cut0, last2, src, x);
      assert srcEndOfLast <= x by { BeforeCut(s, into, c, m, t, st, tp, srcStart, from, cut0, last2, x); }
    }

    /**
     Plan the destinations of all live objects of source chunk c, continuing from `from`. There is no room only if the
     live objects that are left do not fit into the last destination chunk; where each destination chunk is at least as
     large as the source chunk at its position, there always is, and no step goes past chunk c.
     */
    method CalculateObjectDestinations(s: Space, into: seq<Chunk>, c: nat, from: Destination, ghost cut0: seq<nat>)
        returns (room: bool, dest: Destination, ghost cut: seq<nat>, ghost reached: nat)
      requires ShapeInto(s, into) && c < |s.chunks|
      requires Working(s, into, c, marks[..], table[..], starts[..], tops[..], s.chunks[c].start, from, cut0)
      requires TightTo(s, into, starts[..], tops[..], cut0, s.chunks[c].start)
      modifies marks, table, starts, tops
      ensures TightTo(s, into, starts[..], tops[..], cut, s.chunks[c].end)
      ensures s.chunks[c].start / 32 < starts.Length && starts[..] == old(starts[..])[s.chunks[c].start / 32 := 0]
      ensures Working(s, into, c, marks[..], table[..], starts[..], tops[..], reached, dest, cut)
      ensures if room then reached == s.chunks[c].end else !Roomy(s, into) && NoRoom(s, into, c, reached, dest)
      ensures cut0 <= cut
      ensures MarksKept(s, c, old(marks[..]), marks[..])
    {
      WorkingDest(s, into, c, marks[..], table[..], starts[..], tops[..], s.chunks[c].start, from, cut0);
      WorkingCut(s, into, c, marks[..], table[..], starts[..], tops[..], s.chunks[c].start, from, cut0);
      hide Working, MarksKept, Roomy, TightTo, ClosedAt;
      TightEnter(s, into, starts[..], tops[..], cut0, c);
      TightLater(s, into, starts[..][s.chunks[c].start / 32 := 0], tops[..], cut0, s.chunks[c].start, s.chunks[c].end);
      var src: nat := s.chunks[c].start;
      dest, cut, reached, room := from, cut0, src, true;
      // The first object of the chunk is always recorded.
      starts[src / 32] := 0;
      assert starts[..] == old(starts[..])[src / 32 := 0];
      FirstStart(s, into, c, marks[..], table[..], old(starts[..]), starts[..], tops[..], src, from, cut0);
      NoMarksChanged(s, c, marks[..]);
      var done := false;
      while !done
        invariant Working(s, into, c, marks[..], table[..], starts[..], tops[..], src, dest, cut)
        invariant MarksKept(s, c, old(marks[..]), marks[..])
        invariant dest.chunk < |into| && cut0 <= cut && room
        invariant done ==> src == s.chunks[c].end
        invariant !done ==> dest.chunk == |cut| - 1 && src == Max(cut[dest.chunk], s.chunks[c].start)
        invariant TightTo(s, into, starts[..], tops[..], cut, s.chunks[c].end)
        invariant starts[..] == old(starts[..])[s.chunks[c].start / 32 := 0]
        decreases !done, |into| - dest.chunk
      {
        ghost var m, tp, before := marks[..], tops[..], cut;
        room, done, src, dest, cut := PlanStretch(s, into, c, src, dest, cut);
        if room && !done { TightMore(s, into, starts[..], tp, tops[..], before, s.chunks[c].end, c, src); }
        MarksKeptTwice(s, c, old(marks[..]), m, marks[..]);
        WorkingDest(s, into, c, marks[..], table[..], starts[..], tops[..], src, dest, cut);
        if !room {
          reached := src;
          return;
        }
      }
      reached := src;
    }

    /**
     Plan the compaction of a whole space: visit the chunks in order, then record the top of the last
     destination chunk used and mark the remaining chunks unused. The plan is complete unless there was no room.
     */
    method ComputeCompactionDestinations(s: Space, into: seq<Chunk>) returns (room: bool, ghost cut: seq<nat>)
      requires ShapeInto(s, into) && 0 < |s.chunks| && 0 < |into| && NonEmpty(into)
      requires Prepared(s, marks[..], table[..], starts[..], 0)
      modifies marks, table, starts, tops
      ensures Roomy(s, into) ==> room
      ensures room ==> FinalPlan(s, into, marks[..], table[..], tops[..], cut)
      ensures room ==> starts[..] == WithFirst(s, old(starts[..]), |s.chunks|)
      ensures room ==> Tight(s, into, starts[..], tops[..], cut)
      ensures room ==> Prepared(s, marks[..], table[..], starts[..], |s.chunks|)
      ensures !room ==>
                exists c, reached, dest :: OutOfRoom(s, into, marks[..], table[..], tops[..], cut, c, reached, dest)
    {
      hide Working, Prepared, MarksKept, PlanState, Roomy, NoRoom, TightTo, WithFirst, Tight;
      PreparedValid(s, marks[..], table[..], starts[..], 0);
      NoFirst(s, starts[..]);
      var dest := Destination(0, into[0].start, into[0].UsableEnd());
      cut := [s.chunks[0].start];
      StartPlan(s, into, marks[..], table[..], starts[..], tops[..]);
      NoneClosed(s, into, starts[..], tops[..], cut, SettledBefore(s, 0));
      for c := 0 to |s.chunks|
        invariant Prepared(s, marks[..], table[..], starts[..], c)
        invariant PlanState(s, into, marks[..], table[..], tops[..], cut, SettledBefore(s, c), dest)
        invariant dest.chunk < |into| && (Roomy(s, into) ==> dest.chunk <= c)
        invariant 0 < |cut| && cut[0] == s.chunks[0].start
        invariant TightTo(s, into, starts[..], tops[..], cut, SettledBefore(s, c))
        invariant starts[..] == WithFirst(s, old(starts[..]), c)
      {
        ghost var m, t, st := marks[..], table[..], starts[..];
        EnterChunk(s, into, c, m, t, st, tops[..], dest, cut);
        TightLater(s, into, st, tops[..], cut, SettledBefore(s, c), s.chunks[c].start);
        ghost var reached;
        room, dest, cut, reached := CalculateObjectDestinations(s, into, c, dest, cut);
        WorkingPlan(s, into, c, marks[..], table[..], starts[..], tops[..], reached, dest, cut);
        if !room {
          assert OutOfRoom(s, into, marks[..], table[..], tops[..], cut, c, reached, dest);
          return;
        }
        LeaveChunk(s, into, c, m, marks[..], t, table[..], st, starts[..], tops[..], dest, cut);
        OneMoreFirst(s, old(starts[..]), c);
        WorkingDest(s, into, c, marks[..], table[..], starts[..], tops[..], reached, dest, cut);
      }
      room := true;
      ghost var m, t, st, tp := marks[..], table[..], starts[..], tops[..];
      PreparedValid(s, m, t, st, |s.chunks|);
      tops[dest.chunk] := dest.address;
      for h := dest.chunk + 1 to |into|
        invariant marks[..] == m && table[..] == t && starts[..] == st
        invariant forall i :: 0 <= i < dest.chunk ==> tops[i] == tp[i]
        invariant tops[dest.chunk] == dest.address
        invariant forall i :: dest.chunk < i < h ==> tops[i] == into[i].start
      {
        tops[h] := into[h].start;
      }
      ghost var before := cut;
      cut := PlanBecomesFinal(s, into, m, t, tp, tops[..], before, dest);
      TightFinal(s, into, st, tp, tops[..], before, cut, SettledBefore(s, |s.chunks|));
    }
  }
}
