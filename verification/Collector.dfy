/** A full collection of the old space: mark from the roots, then compact. */
module Collector {
  import opened Bits
  import opened Compaction
  import opened CompactedSpace
  import opened Compactor
  import opened GcHeap
  import opened Marker
  import opened Marking
  import opened Planner
  import opened PlanSteps
  import opened PlanTheorems
  import opened Survivors

  /** In the chunks nothing is marked and the recorded starts are objects of their cards; no card is flagged. */
  ghost predicate CleanMetadata(s: Space, marks: seq<bv32>, flags: seq<bool>, starts: seq<int>) {
    && |marks| == |flags| == |starts| && |s.mem| <= 32 * |marks|
    && (forall l {:trigger marks[l]} :: 0 <= l < |marks| && s.ChunkCard(l) ==> marks[l] == 0)
    && (forall l :: 0 <= l < |flags| ==> !flags[l])
    && (forall l {:trigger starts[l]} :: 0 <= l < |starts| && s.ChunkCard(l) && starts[l] != NO_START ==>
          0 <= starts[l] < 32 && 32 * l + starts[l] in s.objs)
  }

  /**
   What a collection starts from: a sound space, clean metadata, and the objects that the roots reach as the live ones.
   */
  ghost predicate Collectable(s: Space, words: seq<Word>, marks: seq<bv32>, flags: seq<bool>, starts: seq<int>,
                              memory: seq<Word>)
  {
    && 0 < |s.chunks| && WholePages(s) && memory == s.mem && Traceable(s, RootSet(s, words))
    && CleanMetadata(s, marks, flags, starts)
    && s.live == set a | a in s.objs && Reachable(s, RootSet(s, words), a)
  }

  lemma NothingMarked(marks: seq<bv32>, w: nat)
    requires w / 32 < |marks| ==> marks[w / 32] == 0
    ensures !Marked(marks, w)
  {
    hide Bit;
    ZeroHasNoBits(w % 32);
  }

  lemma InChunkCard(s: Space, c: nat, w: nat)
    requires s.ChunksOk() && c < |s.chunks| && s.chunks[c].start <= w < s.chunks[c].end
    ensures s.ChunkCard(w / 32)
  {
  }

  lemma CleanIsTracing(s: Space, roots: set<nat>, marks: seq<bv32>, flags: seq<bool>, starts: seq<int>)
    requires Traceable(s, roots) && CleanMetadata(s, marks, flags, starts)
    ensures Tracing(s, roots, marks, Queue([], false, flags, starts), {}, NoScan, 0, |s.mem|)
  {
    hide Marked, Reachable, Space.Valid, Space.ChunkCard;
    ValidChunks(s);
    forall a | a in s.objs
      ensures a < |s.mem| && White(s, marks, a) && !Marked(marks, a) && !Marked(marks, a + 1) && Coloured(s, marks, a)
    {
      ObjectBounds(s, a);
      ObjectClean(s, marks, flags, starts, a);
    }
    forall c | 0 <= c < |s.chunks|
      ensures 0 < s.chunks[c].end && !Marked(marks, s.chunks[c].end - 1)
    {
      SentinelIsNoObject(s, c);
      InChunkCard(s, c, s.chunks[c].end - 1);
      NothingMarked(marks, s.chunks[c].end - 1);
    }
  }

  /** Neither the words of an object nor the word after it are marked. */
  lemma ObjectClean(s: Space, marks: seq<bv32>, flags: seq<bool>, starts: seq<int>, a: nat)
    requires s.Valid() && s.ChunksOk() && CleanMetadata(s, marks, flags, starts) && a in s.objs
    ensures a < |s.mem| && 0 < s.Size(a) && forall w: nat :: a <= w <= a + s.Size(a) ==> !Marked(marks, w)
  {
    hide Marked, Space.Valid;
    var c := ChunkIndex(s, a);
    assert a + s.Size(a) <= s.chunks[c].UsableEnd() by { assert s.ObjectOk(s.chunks[c], a); }
    forall w: nat | a <= w <= a + s.Size(a)
      ensures !Marked(marks, w)
    {
      InChunkCard(s, c, w);
      NothingMarked(marks, w);
    }
  }

  /**
   Mark and compact. The live objects are those that the roots reach. Each of them is copied to its
   destination with all its pointers redirected; in the space that results the redirected roots reach exactly
   the copies; and all is as it was at the start, so that collections can follow each other.
   */
  method CollectOldSpace(s: Space, rootWords: array<Word>, meta: GcMetadata, flags: array<bool>, memory: array<Word>)
      returns (used: nat, ghost planned: seq<bv32>, ghost cut: seq<nat>)
    requires meta.Shape(s) && memory.Length == |s.mem| && flags.Length == meta.marks.Length
    requires memory as object != meta.marks && memory as object != meta.table
    requires memory as object != meta.starts && memory as object != meta.tops
    requires rootWords as object != meta.marks && rootWords as object != meta.table
    requires rootWords as object != meta.starts
    requires rootWords as object != meta.tops && rootWords != memory && rootWords as object != flags
    requires flags as object != meta.marks && flags as object != meta.table && flags as object != meta.starts
    requires flags as object != meta.tops && flags as object != memory
    requires Collectable(s, rootWords[..], meta.marks[..], flags[..], meta.starts[..], memory[..])
    modifies meta.marks, meta.table, meta.starts, meta.tops, memory, flags, rootWords
    ensures FinalPlan(s, s.chunks, planned, meta.table[..], meta.tops[..], cut)
    ensures forall a :: a in s.live ==> a < |s.mem| && Copied(s, planned, meta.table[..], memory[..], a)
    ensures forall i :: 0 <= i < rootWords.Length ==>
              rootWords[i] == FixWord(s, planned, meta.table[..], old(rootWords[i]))
    ensures used == s.LiveWords(s.chunks[0].start, s.chunks[|s.chunks| - 1].end)
    ensures StartsPlaced(s, planned, meta.table[..], meta.starts[..], s.chunks[|s.chunks| - 1].end)
    ensures var n := NewSpace(s, planned, meta.table[..], meta.tops[..], memory[..]);
            n.Valid() && meta.Shape(n) && CleanMetadata(n, meta.marks[..], flags[..], meta.starts[..])
    ensures WellPointed(s) && RootsWellPointed(s, old(rootWords[..])) ==>
              var n := NewSpace(s, planned, meta.table[..], meta.tops[..], memory[..]);
              && Collectable(n, rootWords[..], meta.marks[..], flags[..], meta.starts[..], memory[..])
              && WellPointed(n) && RootsWellPointed(n, rootWords[..])
  {
    hide Tracing, CleanMetadata, Traceable, Marked, Reachable, Prepared, FinalPlan, Copied, Black, White, FixWord,
         WellPointed, RootsWellPointed, Space.Valid, Names, WholePages, StartsPlaced;
    ghost var words := rootWords[..];
    ghost var roots := RootSet(s, words);
    CleanIsTracing(s, roots, meta.marks[..], flags[..], meta.starts[..]);
    var stack := new MarkingStack(s, meta.marks, meta.starts, flags, roots);
    RootsHaveTwoWords(s, words);
    stack.MarkReachable(rootWords[..]);
    assert memory[..] == s.mem && rootWords[..] == words;
    MarkedIsPrepared(s, roots, meta.marks[..], meta.table[..], stack.Queued(), 0);
    ghost var flagged := flags[..];
    forall a | a in s.live
      ensures a < |s.mem| && 2 <= s.Size(a)
    {
      LiveHasTwoWords(s, meta.marks[..], a);
    }
    used, planned, cut := CompactSharedHeap(s, meta, memory, rootWords);
    assert flags[..] == flagged;
    TraceableIsValid(s, roots);
    ghost var n := NewSpace(s, planned, meta.table[..], meta.tops[..], memory[..]);
    CleanAgain(s, n, meta.marks[..], flags[..], meta.starts[..]);
    if WellPointed(s) && RootsWellPointed(s, words) {
      CollectableAgain(s, planned, meta.table[..], meta.tops[..], cut, memory[..], words, rootWords[..]);
    }
  }

  lemma TraceableIsValid(s: Space, roots: set<nat>)
    requires Traceable(s, roots)
    ensures s.Valid()
  {
  }

  lemma RootsHaveTwoWords(s: Space, words: seq<Word>)
    requires Traceable(s, RootSet(s, words))
    ensures forall i :: 0 <= i < |words| && Names(s, words[i]) ==>
              words[i].target < |s.mem| && 2 <= s.Size(words[i].target)
  {
    hide Reachable, Space.Valid;
    forall i | 0 <= i < |words| && Names(s, words[i])
      ensures words[i].target < |s.mem| && 2 <= s.Size(words[i].target)
    {
      assert words[i].target in RootSet(s, words);
      ReachRoot(s, RootSet(s, words), words[i].target);
    }
  }

  lemma CleanAgain(s: Space, n: Space, marks: seq<bv32>, flags: seq<bool>, starts: seq<int>)
    requires n.chunks == s.chunks && |n.mem| == |s.mem| <= 32 * |marks| && |marks| == |flags| == |starts|
    requires forall l :: 0 <= l < |flags| ==> !flags[l]
    requires forall c, l :: 0 <= c < |s.chunks| && s.chunks[c].start / 32 <= l < s.chunks[c].end / 32 ==>
              0 <= l < |marks| && marks[l] == 0
    requires forall c :: 0 <= c < |s.chunks| ==> s.chunks[c].end <= 32 * |starts| && StartsOk(n, starts, s.chunks[c])
    ensures CleanMetadata(n, marks, flags, starts)
  {
  }

  lemma CollectableAgain(s: Space, marks: seq<bv32>, table: seq<int>, tops: seq<int>, cut: seq<nat>, mem: seq<Word>,
                         words: seq<Word>, words': seq<Word>)
    requires CarriedOut(s, marks, table, tops, cut, mem) && |tops| == |s.chunks| && 0 < |s.chunks| && WholePages(s)
    requires WellPointed(s) && RootsWellPointed(s, words) && Traceable(s, RootSet(s, words))
    requires LiveIsReachable(s, RootSet(s, words))
    requires |words'| == |words| && forall i :: 0 <= i < |words| ==> words'[i] == FixWord(s, marks, table, words[i])
    ensures var n := NewSpace(s, marks, table, tops, mem);
            && 0 < |n.chunks| && WholePages(n) && mem == n.mem && Traceable(n, RootSet(n, words'))
            && n.live == (set a | a in n.objs && Reachable(n, RootSet(n, words'), a))
            && WellPointed(n) && RootsWellPointed(n, words')
  {
    hide CarriedOut, WellPointed, RootsWellPointed, Traceable, LiveIsReachable, Reachable, NewSpace, RootSet, FixWord;
    var n := NewSpace(s, marks, table, tops, mem);
    NewChunks(s, marks, table, tops, mem);
    CopyWellPointed(s, marks, table, tops, cut, mem, RootSet(s, words));
    CopyRootsWellPointed(s, marks, table, tops, cut, mem, words, words');
    CopyTraceable(s, marks, table, tops, cut, mem, words, words');
    forall y
      ensures y in n.live <==> y in n.objs && Reachable(n, RootSet(n, words'), y)
    {
      SurvivorsAreReachable(s, marks, table, tops, cut, mem, words, words', y);
    }
  }

  lemma LiveHasTwoWords(s: Space, marks: seq<bv32>, a: nat)
    requires a < |s.mem| && Black(s, marks, a)
    ensures 2 <= s.Size(a)
  {
  }
}
