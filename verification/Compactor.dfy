/** The visitor that moves every live object of the old space to its planned destination. */
module Compactor {
  import opened Bits
  import opened GcHeap
  import opened Plan
  import opened PlanFullness
  import opened PlanTheorems
  import opened PlanSteps
  import opened Planner
  import opened Compaction
  import opened CompactedSpace

  class CompactingVisitor {
    const meta: GcMetadata
    const memory: array<Word>
    var dest: Destination
    var used: nat

    ghost predicate Shape(s: Space) {
      meta.Shape(s) && memory.Length == |s.mem| && NotMetadata(memory)
    }

    /** The bump pointer starts in the first chunk, up to its planned top. */
    constructor (s: Space, meta: GcMetadata, memory: array<Word>)
      requires meta.tops.Length == |s.chunks|
      ensures this.meta == meta && this.memory == memory && used == 0
      ensures dest == if |s.chunks| == 0 then Destination(0, 0, 0)
                      else Destination(0, s.chunks[0].start, meta.tops[0])
    {
      this.meta, this.memory := meta, memory;
      used := 0;
      dest := if |s.chunks| == 0 then Destination(0, 0, 0) else Destination(0, s.chunks[0].start, meta.tops[0]);
    }

    /** Copy the words of an object to a lower address; source and destination may overlap. */
    method ObjectMemMove(to: nat, source: nat, size: nat)
      requires to < source && source + size <= memory.Length && 2 <= size
      modifies memory
      ensures forall w :: source <= w < source + size ==> memory[to + (w - source)] == old(memory[w])
      ensures SameOutside(old(memory[..]), memory[..], to, to + size)
    {
      var t0, t1 := memory[source], memory[source + 1];
      memory[to] := t0;
      memory[to + 1] := t1;
      var i := 2;
      while i != size
        invariant 2 <= i <= size
        invariant forall w :: source <= w < source + i ==> memory[to + (w - source)] == old(memory[w])
        invariant forall w :: 0 <= w < memory.Length && !(to <= w < to + i) ==> memory[w] == old(memory[w])
      {
        memory[to + i] := memory[source + i];
        i := i + 1;
      }
    }

    ghost predicate NotMetadata(block: array<Word>) {
      && block as object != meta.marks && block as object != meta.table
      && block as object != meta.starts && block as object != meta.tops
    }

    /** What a word becomes: the destination of its target when it points into the space. */
    method FixPointer(s: Space, word: Word, ghost planned: seq<bv32>) returns (fixed: Word)
      requires meta.Shape(s) && s.ChunksOk() && SameObjectMarks(s, planned, meta.marks[..])
      ensures fixed == FixWord(s, planned, meta.table[..], word)
    {
      hide Dest, Marked, Space.ChunksOk;
      fixed := word;
      if word.Pointer? && InOldSpace(s, word.target) {
        SameDestination(s, planned, meta.marks[..], meta.table[..], word.target);
        fixed := Pointer(meta.GetDestination(word.target));
      }
    }

    /** Redirect the pointers in a block of words: the words of an object, or roots. */
    method FixPointers(s: Space, block: array<Word>, at: nat, size: nat, ghost planned: seq<bv32>)
      requires meta.Shape(s) && s.ChunksOk() && NotMetadata(block) && at + size <= block.Length
      requires SameObjectMarks(s, planned, meta.marks[..])
      modifies block
      ensures forall w :: at <= w < at + size ==> block[w] == FixWord(s, planned, meta.table[..], old(block[w]))
      ensures SameOutside(old(block[..]), block[..], at, at + size)
    {
      hide FixWord, SameObjectMarks, Space.ChunksOk;
      ghost var m, t := meta.marks[..], meta.table[..];
      for i := at to at + size
        invariant meta.marks[..] == m && meta.table[..] == t
        invariant forall w :: at <= w < i ==> block[w] == FixWord(s, planned, t, old(block[w]))
        invariant forall w :: 0 <= w < block.Length && !(at <= w < i) ==> block[w] == old(block[w])
      {
        block[i] := FixPointer(s, block[i], planned);
      }
    }

    /** The first marked word after an unmarked one, skipping empty mark words a line at a time. */
    method NextMarked(a: nat, ghost sentinel: nat) returns (n: nat)
      requires a < sentinel && sentinel / 32 < meta.marks.Length
      requires !Marked(meta.marks[..], a) && Marked(meta.marks[..], sentinel)
      ensures a < n <= sentinel && Marked(meta.marks[..], n) && NoneMarked(meta.marks[..], a, n)
    {
      hide Bit, FirstSet;
      var l := a / 32;
      var i := FirstSet(meta.marks[l], a % 32);
      n := 32 * l + i;
      while i == 32
        invariant l <= sentinel / 32 && n == 32 * l + i && a <= n
        invariant 0 <= i <= 32
        invariant i < 32 ==> Bit(meta.marks[l], i)
        invariant NoneMarked(meta.marks[..], a, n)
        decreases sentinel / 32 - l, i
      {
        assert n <= sentinel;
        l := l + 1;
        i := FirstSet(meta.marks[l], 0);
        n := 32 * l + i;
      }
    }

    ghost predicate At(s: Space, planned: seq<bv32>, cut: seq<nat>, p: nat)
      reads this, meta.marks, meta.table, meta.starts, meta.tops, memory
    {
      Visited(s, planned, meta.table[..], meta.tops[..], cut, meta.marks[..], meta.starts[..], memory[..], dest, used,
          p)
    }

    /** Step to the next destination chunk until the object fits: then the bump pointer is the planned destination. */
    method AdvanceDestination(s: Space, obj: nat, size: nat, ghost planned: seq<bv32>, ghost cut: seq<nat>)
      requires Shape(s) && At(s, planned, cut, obj)
      requires obj in s.live && obj < |s.mem| && size == s.Size(obj)
      modifies this`dest
      ensures At(s, planned, cut, obj)
      ensures dest.chunk < |s.chunks| && |cut| == |s.chunks| + 1 && obj < cut[dest.chunk + 1]
      ensures 0 <= dest.address == Dest(planned, meta.table[..], obj) <= obj
      ensures dest.address == Dest(meta.marks[..], meta.table[..], obj)
    {
      hide Visited, Dest;
      ghost var marks, table, tops := meta.marks[..], meta.table[..], meta.tops[..];
      ghost var st, mem := meta.starts[..], memory[..];
      VisitedShape(s, planned, table, tops, cut, marks, st, mem, dest, used, obj);
      while dest.address + size > dest.limit
        invariant Visited(s, planned, table, tops, cut, marks, st, mem, dest, used, obj)
        invariant dest.chunk < |s.chunks|
        decreases |s.chunks| - dest.chunk
      {
        VisitMovesOn(s, planned, table, tops, cut, marks, st, mem, dest, used, obj);
        dest := Destination(dest.chunk + 1, s.chunks[dest.chunk + 1].start, meta.tops[dest.chunk + 1]);
      }
      VisitArrives(s, planned, table, tops, cut, marks, st, mem, dest, used, obj);
    }

    /** Copy the object unless it stays in place, then redirect its pointers. */
    method Transfer(s: Space, obj: nat, to: nat, size: nat, ghost planned: seq<bv32>)
      requires Shape(s) && s.ChunksOk() && SameObjectMarks(s, planned, meta.marks[..])
      requires obj < |s.mem| && size == s.Size(obj) && 2 <= size && obj + size <= |s.mem|
      requires to == Dest(planned, meta.table[..], obj) && to <= obj
      requires forall w :: obj <= w < obj + size ==> memory[w] == s.mem[w]
      modifies memory
      ensures Copied(s, planned, meta.table[..], memory[..], obj)
      ensures SameOutside(old(memory[..]), memory[..], to, to + size)
    {
      hide Dest, FixWord, Copied, SameObjectMarks;
      ghost var table, mem := meta.table[..], memory[..];
      if obj != to {
        ObjectMemMove(to, obj, size);
      }
      ghost var mem1 := memory[..];
      FixPointers(s, memory, to, size, planned);
      CopyComplete(s, planned, table, mem, mem1, memory[..], obj, to);
    }

    /** Move a live object to where the plan wants it and redirect its pointers. */
    method VisitLiveObject(s: Space, ghost c: nat, obj: nat, ghost planned: seq<bv32>, ghost cut: seq<nat>)
        returns (size: nat)
      requires Shape(s) && At(s, planned, cut, obj) && c < |s.chunks|
      requires s.chunks[c].start <= obj < s.chunks[c].UsableEnd() && obj in s.objs && Marked(meta.marks[..], obj)
      modifies this, memory, meta.starts
      ensures At(s, planned, cut, obj + size)
      ensures 0 < size && obj + size <= s.chunks[c].UsableEnd() && s.Boundary(s.chunks[c], obj + size)
    {
      hide Visited, Marked, Dest, Copied, SameObjectMarks, SameOutside, Space.ChunksOk, GcMetadata.GetDestination;
      ghost var marks, table, tops := meta.marks[..], meta.table[..], meta.tops[..];
      ghost var st, mem := meta.starts[..], memory[..];
      MarkedIsLive(s, planned, table, tops, cut, marks, st, mem, dest, used, c, obj);
      VisitedShape(s, planned, table, tops, cut, marks, st, mem, dest, used, obj);
      size := memory[obj].size;
      AdvanceDestination(s, obj, size, planned, cut);
      assert dest.address == meta.GetDestination(obj);
      var to: nat := dest.address;
      meta.starts[to / 32] := to % 32;
      assert meta.marks[..] == marks && meta.table[..] == table && memory[..] == mem;
      Transfer(s, obj, to, size, planned);
      assert meta.marks[..] == marks && meta.table[..] == table && meta.tops[..] == tops;
      VisitLive(s, planned, table, tops, cut, marks, st, meta.starts[..], mem, memory[..], dest, used, obj);
      used := used + size;
      dest := dest.(address := dest.address + size);
    }

    /** Visit one object; the result is the distance to the next one. A live object is moved, dead ones are skipped. */
    method Visit(s: Space, ghost c: nat, obj: nat, ghost planned: seq<bv32>, ghost cut: seq<nat>) returns (size: nat)
      requires Shape(s) && At(s, planned, cut, obj) && c < |s.chunks|
      requires s.chunks[c].start <= obj < s.chunks[c].UsableEnd() && obj in s.objs
      requires Marked(meta.marks[..], s.chunks[c].UsableEnd())
      modifies this, memory, meta.starts
      ensures At(s, planned, cut, obj + size)
      ensures 0 < size && obj + size <= s.chunks[c].UsableEnd() && s.Boundary(s.chunks[c], obj + size)
    {
      hide Visited, Marked;
      ChunkInMemory(s, planned, meta.table[..], meta.tops[..], cut, meta.marks[..], meta.starts[..], memory[..], dest,
                    used, obj, c);
      if meta.IsMarked(obj) {
        size := VisitLiveObject(s, c, obj, planned, cut);
      } else {
        var n := NextMarked(obj, s.chunks[c].UsableEnd());
        SkipToNext(s, planned, meta.table[..], meta.tops[..], cut, meta.marks[..], meta.starts[..], memory[..], dest,
                   used, c, obj, n);
        size := n - obj;
      }
    }

    /** Visit the chunks in list order. The recorded object starts are forgotten first. */
    method CompactSpace(s: Space, ghost planned: seq<bv32>, ghost cut: seq<nat>)
      requires Shape(s) && 0 < |s.chunks| && Planned(s, planned, meta.table[..], meta.tops[..], cut)
      requires meta.marks[..] == planned && memory[..] == s.mem
      requires used == 0 && dest == Destination(0, s.chunks[0].start, meta.tops[0])
      modifies this, memory, meta.starts, meta.marks
      ensures At(s, planned, cut, s.chunks[|s.chunks| - 1].end)
    {
      hide Visited, Planned;
      ghost var table, tops := meta.table[..], meta.tops[..];
      PlanShape(s, planned, table, tops, cut);
      ZapObjectStarts(s);
      assert meta.table[..] == table && meta.tops[..] == tops && meta.marks[..] == planned && memory[..] == s.mem;
      VisitStarts(s, planned, meta.table[..], meta.tops[..], cut, meta.starts[..], s.chunks[0].start);
      for c := 0 to |s.chunks|
        invariant At(s, planned, cut, SettledBefore(s, c))
      {
        VisitGap(s, planned, meta.table[..], meta.tops[..], cut, meta.marks[..], meta.starts[..], memory[..], dest,
                 used, SettledBefore(s, c), c);
        IterateChunk(s, c, planned, cut);
      }
    }

    /** Forget the recorded object starts of all chunks. */
    method ZapObjectStarts(s: Space)
      requires Shape(s) && s.ChunksOk()
      modifies meta.starts
      ensures forall l :: 0 <= l < meta.starts.Length ==>
                meta.starts[l] == if s.ChunkCard(l) then NO_START else old(meta.starts[l])
    {
      for c := 0 to |s.chunks|
        invariant forall l :: 0 <= l < meta.starts.Length ==>
                    meta.starts[l] == if InChunksTo(s, c, l) then NO_START else old(meta.starts[l])
      {
        InitializeStartsForChunk(s.chunks[c]);
      }
    }

    /** Forget the recorded object starts of a chunk. */
    method InitializeStartsForChunk(ch: Chunk)
      requires ch.start <= ch.end <= 32 * meta.starts.Length
      modifies meta.starts
      ensures forall l :: 0 <= l < meta.starts.Length ==>
                meta.starts[l] == if ch.start / 32 <= l < ch.end / 32 then NO_START else old(meta.starts[l])
    {
      for l := ch.start / 32 to ch.end / 32
        invariant forall i :: 0 <= i < meta.starts.Length ==>
                    meta.starts[i] == if ch.start / 32 <= i < l then NO_START else old(meta.starts[i])
      {
        meta.starts[l] := NO_START;
      }
    }

    /** Visit all objects of one chunk. */
    method IterateChunk(s: Space, c: nat, ghost planned: seq<bv32>, ghost cut: seq<nat>)
      requires Shape(s) && c < |s.chunks| && At(s, planned, cut, s.chunks[c].start)
      modifies this, memory, meta.starts, meta.marks
      ensures At(s, planned, cut, s.chunks[c].end)
    {
      hide Visited, Marked, SetLast, Space.ChunksOk;
      ghost var marks, st, table, tops, mem := meta.marks[..], meta.starts[..], meta.table[..], meta.tops[..],
          memory[..];
      var ch := s.chunks[c];
      ChunkInMemory(s, planned, table, tops, cut, marks, st, mem, dest, used, ch.start, c);
      InitializeStartsForChunk(ch);
      meta.marks[ch.UsableEnd() / 32] := SetLast(meta.marks[ch.UsableEnd() / 32]);
      assert meta.table[..] == table && meta.tops[..] == tops && memory[..] == mem;
      VisitChunkStart(s, planned, table, tops, cut, marks, meta.marks[..], st, meta.starts[..], mem, dest, used,
                      ch.start, c);
      IterateObjects(s, c, planned, cut);
    }

    /** The walk over the objects of a chunk, from one Visit to the next, up to the sentinel. */
    method IterateObjects(s: Space, c: nat, ghost planned: seq<bv32>, ghost cut: seq<nat>)
      requires Shape(s) && c < |s.chunks| && At(s, planned, cut, s.chunks[c].start)
      requires 0 <= s.chunks[c].UsableEnd() && Marked(meta.marks[..], s.chunks[c].UsableEnd())
      modifies this, memory, meta.starts
      ensures At(s, planned, cut, s.chunks[c].end)
    {
      hide Visited, Marked, Planned;
      var ch := s.chunks[c];
      var current := ch.start;
      ghost var m := meta.marks[..];
      ChunkBegin(s, planned, meta.table[..], meta.tops[..], cut, m, meta.starts[..], memory[..], dest, used, current,
                 c);
      while memory[current] != Sentinel
        invariant ch.start <= current <= ch.UsableEnd() && s.Boundary(ch, current) && current < memory.Length
        invariant At(s, planned, cut, current)
        invariant meta.marks[..] == m
        invariant memory[current] == Sentinel <==> current == ch.UsableEnd()
        decreases ch.end - current
      {
        var size := Visit(s, c, current, planned, cut);
        current := current + size;
        ReadsSentinel(s, planned, meta.table[..], meta.tops[..], cut, m, meta.starts[..], memory[..], dest, used,
                      current, c);
      }
      ChunkDone(s, planned, meta.table[..], meta.tops[..], cut, m, meta.starts[..], memory[..], dest, used, c);
    }
  }

  /** Line l belongs to one of the first n chunks. */
  ghost predicate InChunksTo(s: Space, n: nat, l: int) {
    exists c :: 0 <= c < |s.chunks| && c < n && s.chunks[c].start / 32 <= l < s.chunks[c].end / 32
  }

  /** Turn the words from `top` to `end` into free memory: one chunk, or fillers if it is too small. */
  method AddFreeChunk(memory: array<Word>, top: nat, end: nat)
    requires top < end <= memory.Length
    modifies memory
    ensures forall w :: 0 <= w < memory.Length ==>
              memory[w] == if FreeStart(top, end, w) then FreeWord(top, end) else old(memory[w])
  {
    if end - top < 3 {
      for i := top to end
        invariant forall w :: 0 <= w < memory.Length ==> memory[w] == if top <= w < i then Header(1) else old(memory[w])
      {
        memory[i] := Header(1);
      }
    } else {
      memory[top] := Header(end - top);
    }
  }

  /** Everything above the top of a chunk becomes free memory, and the cards above it have no object starts. */
  method MarkChunkEndsFree(s: Space, meta: GcMetadata, memory: array<Word>)
    requires s.ChunksOk() && meta.tops.Length == |s.chunks| && memory.Length == |s.mem| <= 32 * meta.starts.Length
    requires memory as object != meta.tops && memory as object != meta.starts && meta.tops as object != meta.starts
    requires forall c :: 0 <= c < |s.chunks| ==> s.chunks[c].start <= meta.tops[c] <= s.chunks[c].UsableEnd()
    modifies memory, meta.starts
    ensures EndsFreed(s, meta.tops[..], old(memory[..]), memory[..])
    ensures forall l :: 0 <= l < meta.starts.Length ==>
              meta.starts[l] == if FreedCard(s, meta.tops[..], l) then NO_START else old(meta.starts[l])
  {
    hide FreeStart, FreeWord;
    ghost var tops := meta.tops[..];
    for c := 0 to |s.chunks|
      invariant meta.tops[..] == tops
      invariant EndsFreedTo(s, tops, old(memory[..]), memory[..], c)
      invariant forall l :: 0 <= l < meta.starts.Length ==>
                  meta.starts[l] == if FreedCardTo(s, tops, l, c) then NO_START else old(meta.starts[l])
    {
      ghost var before := memory[..];
      var top, end := meta.tops[c], s.chunks[c].UsableEnd();
      if top != end {
        AddFreeChunk(memory, top, end);
      } else {
        NothingFree(top, end);
      }
      FreeOneMore(s, tops, old(memory[..]), before, memory[..], c);
      ClearStartsAbove(meta, top, s.chunks[c].end);
    }
  }

  /** Line l lies wholly above the top of one of the first n chunks. */
  ghost predicate FreedCardTo(s: Space, tops: seq<int>, l: int, n: nat) {
    exists c :: 0 <= c < |s.chunks| && c < |tops| && c < n && tops[c] <= 32 * l < s.chunks[c].end
  }

  /** Forget the recorded object starts from the first card boundary at or above `top`. */
  method ClearStartsAbove(meta: GcMetadata, top: nat, end: nat)
    requires top < end <= 32 * meta.starts.Length && end % 32 == 0
    modifies meta.starts
    ensures forall l :: 0 <= l < meta.starts.Length ==>
              meta.starts[l] == if top <= 32 * l < end then NO_START else old(meta.starts[l])
  {
    for i := (top + 31) / 32 to end / 32
      invariant forall l :: 0 <= l < meta.starts.Length ==>
                  meta.starts[l] == if (top + 31) / 32 <= l < i then NO_START else old(meta.starts[l])
    {
      meta.starts[i] := NO_START;
    }
  }

  method ClearMarkBits(s: Space, meta: GcMetadata)
    requires s.ChunksOk() && |s.mem| <= 32 * meta.marks.Length
    modifies meta.marks
    ensures forall c, l :: 0 <= c < |s.chunks| && s.chunks[c].start / 32 <= l < s.chunks[c].end / 32 ==>
              meta.marks[l] == 0
  {
    for c := 0 to |s.chunks|
      invariant forall d, l :: 0 <= d < c && s.chunks[d].start / 32 <= l < s.chunks[d].end / 32 ==> meta.marks[l] == 0
    {
      for i := s.chunks[c].start / 32 to s.chunks[c].end / 32
        invariant forall d, l :: 0 <= d < c && s.chunks[d].start / 32 <= l < s.chunks[d].end / 32 ==> meta.marks[l] == 0
        invariant forall l :: s.chunks[c].start / 32 <= l < i ==> meta.marks[l] == 0
      {
        meta.marks[i] := 0;
      }
    }
  }

  /**
   A compacting collection of the old space, after marking. Every live object is copied, word for word and
   with its pointers redirected, to the destination the plan gives it; the plan packs the live objects in
   order; and the space left behind is again a valid, walkable space.
   */
  method CompactSharedHeap(s: Space, meta: GcMetadata, memory: array<Word>, rootWords: array<Word>)
      returns (used: nat, ghost planned: seq<bv32>, ghost cut: seq<nat>)
    requires meta.Shape(s) && memory.Length == |s.mem| && memory[..] == s.mem
    requires memory as object != meta.marks && memory as object != meta.table
    requires memory as object != meta.starts && memory as object != meta.tops
    requires rootWords as object != meta.marks && rootWords as object != meta.table
    requires rootWords as object != meta.starts
    requires rootWords as object != meta.tops && rootWords != memory
    requires 0 < |s.chunks| && Prepared(s, meta.marks[..], meta.table[..], meta.starts[..], 0)
    requires forall a :: a in s.live ==> a < |s.mem| && 2 <= s.Size(a)
    modifies meta.marks, meta.table, meta.starts, meta.tops, memory, rootWords
    ensures FinalPlan(s, s.chunks, planned, meta.table[..], meta.tops[..], cut)
    ensures Tight(s, s.chunks, WithFirst(s, old(meta.starts[..]), |s.chunks|), meta.tops[..], cut)
    ensures forall a :: a in s.live ==> a < |s.mem| && Copied(s, planned, meta.table[..], memory[..], a)
    ensures forall i :: 0 <= i < rootWords.Length ==>
              rootWords[i] == FixWord(s, planned, meta.table[..], old(rootWords[i]))
    ensures used == s.LiveWords(s.chunks[0].start, s.chunks[|s.chunks| - 1].end)
    ensures NewSpace(s, planned, meta.table[..], meta.tops[..], memory[..]).Valid()
    ensures forall c :: 0 <= c < |s.chunks| ==>
              && s.chunks[c].end <= 32 * meta.starts.Length
              && StartsOk(NewSpace(s, planned, meta.table[..], meta.tops[..], memory[..]), meta.starts[..], s.chunks[c])
    ensures StartsPlaced(s, planned, meta.table[..], meta.starts[..], s.chunks[|s.chunks| - 1].end)
    ensures forall c, l :: 0 <= c < |s.chunks| && s.chunks[c].start / 32 <= l < s.chunks[c].end / 32 ==>
              meta.marks[l] == 0
  {
    hide Prepared, FinalPlan, Copied, Space.Valid, Visited, Planned, StartsOk, Compacted, EndsFreed, Tight, WithFirst,
         NamesPlaced, AllRecorded, FreedCard, Dest;
    PreparedValid(s, meta.marks[..], meta.table[..], meta.starts[..], 0);
    RoomyAtHome(s);
    var room;
    room, cut := meta.ComputeCompactionDestinations(s, s.chunks);
    planned := meta.marks[..];
    ghost var table, tops := meta.table[..], meta.tops[..];
    PlannedFrom(s, planned, table, meta.starts[..], tops, cut);
    var visitor := new CompactingVisitor(s, meta, memory);
    visitor.CompactSpace(s, planned, cut);
    used := visitor.used;
    assert meta.table[..] == table && meta.tops[..] == tops;
    ghost var mem, marks, st := memory[..], meta.marks[..], meta.starts[..];
    ghost var end := s.chunks[|s.chunks| - 1].end;
    PlanShape(s, planned, table, tops, cut);
    VisitedStarts(s, planned, table, tops, cut, marks, st, mem, visitor.dest, used, end);
    VisitedShape(s, planned, table, tops, cut, marks, st, mem, visitor.dest, used, end);
    visitor.FixPointers(s, rootWords, 0, rootWords.Length, planned);
    ClearMarkBits(s, meta);
    MarkChunkEndsFree(s, meta, memory);
    ghost var cleared := meta.starts[..];
    VisitComplete(s, planned, table, tops, cut, marks, st, mem, visitor.dest, used, memory[..]);
    CompactedValid(s, planned, table, tops, cut, mem, memory[..]);
    forall a | a in s.live
      ensures a < |s.mem| && Copied(s, planned, table, memory[..], a)
    {
      StillCopied(s, planned, table, tops, cut, mem, memory[..], a);
    }
    FreedStarts(s, planned, table, tops, cut, st, cleared, end);
    forall c | 0 <= c < |s.chunks|
      ensures s.chunks[c].end <= 32 * |cleared|
      ensures StartsOk(NewSpace(s, planned, table, tops, memory[..]), cleared, s.chunks[c])
    {
      StartsStillOk(s, planned, table, tops, cut, cleared, memory[..], end, c);
    }
  }
}
