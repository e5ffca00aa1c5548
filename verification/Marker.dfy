/** The marking stack and the loops that drain it. */
module Marker {
  import opened GcHeap
  import opened MarkBits
  import opened Marking
  import opened Numbers
  import opened PlanSteps

  /** Roots and pointers: does the word name an object of the heap? */
  predicate Names(s: Space, w: Word) {
    w.Pointer? && 0 <= w.target && w.target in s.objs
  }

  ghost function Unmarked(s: Space, marks: seq<bv32>): set<nat> {
    set a | a in s.objs && !Marked(marks, a)
  }

  ghost predicate MoreMarks(marks: seq<bv32>, marks': seq<bv32>) {
    forall a: nat {:trigger Marked(marks', a)} :: Marked(marks, a) ==> Marked(marks', a)
  }

  lemma FewerUnmarked(s: Space, marks: seq<bv32>, marks': seq<bv32>)
    requires MoreMarks(marks, marks')
    ensures Unmarked(s, marks') <= Unmarked(s, marks) && |Unmarked(s, marks')| <= |Unmarked(s, marks)|
  {
    hide Marked;
    SubsetSize(Unmarked(s, marks), Unmarked(s, marks'));
  }

  lemma OneFewer(s: Space, marks: seq<bv32>, marks': seq<bv32>, t: nat)
    requires MoreMarks(marks, marks') && t in s.objs && !Marked(marks, t) && Marked(marks', t)
    ensures |Unmarked(s, marks')| < |Unmarked(s, marks)|
  {
    hide Marked;
    assert t in Unmarked(s, marks) && t !in Unmarked(s, marks');
    SubsetSize(Unmarked(s, marks), Unmarked(s, marks'));
  }

  /** The marks, the stack depth and the overflow flag between two operations. */
  datatype Depth = Depth(marks: seq<bv32>, next: nat, overflowed: bool)

  ghost function Work(s: Space, d: Depth): nat {
    2 * |Unmarked(s, d.marks)| + d.next
  }

  /**
   What every operation promises: marks are only added, every push uses up a white object, and so does every overflow.
   */
  ghost predicate Advances(s: Space, d: Depth, d': Depth) {
    && MoreMarks(d.marks, d'.marks) && Work(s, d') <= Work(s, d) && |Unmarked(s, d'.marks)| <= |Unmarked(s, d.marks)|
    && (d'.overflowed && !d.overflowed ==> |Unmarked(s, d'.marks)| < |Unmarked(s, d.marks)|)
  }

  lemma AdvanceMore(s: Space, d0: Depth, d1: Depth, d2: Depth)
    requires Advances(s, d0, d1) && Advances(s, d1, d2)
    ensures Advances(s, d0, d2)
  {
    hide Marked, Unmarked;
  }

  lemma AdvanceNone(s: Space, d: Depth)
    ensures Advances(s, d, d)
  {
    hide Marked, Unmarked;
  }

  class MarkingStack {
    const s: Space
    const marks: array<bv32>
    const starts: array<int>
    const flags: array<bool>
    const backing: array<nat>
    var next: nat
    var overflowed: bool
    ghost const roots: set<nat>

    constructor (s: Space, marks: array<bv32>, starts: array<int>, flags: array<bool>, ghost roots: set<nat>)
      requires marks.Length == starts.Length == flags.Length
      requires marks as object != starts && marks as object != flags && starts as object != flags
      requires Tracing(s, roots, marks[..], Queue([], false, flags[..], starts[..]), {}, NoScan, 0, |s.mem|)
      ensures this.s == s && this.marks == marks && this.starts == starts && this.flags == flags && this.roots == roots
      ensures fresh(backing) && Ok({}, NoScan, 0, |s.mem|) && next == 0 && !overflowed
    {
      this.s, this.marks, this.starts, this.flags, this.roots := s, marks, starts, flags, roots;
      backing := new nat[128](_ => 0);
      next, overflowed := 0, false;
    }

    ghost predicate Shape()
      reads this
    {
      && marks.Length == starts.Length == flags.Length && backing.Length == 128 && next <= 128
      && marks as object != starts && marks as object != flags && marks as object != backing
      && starts as object != flags && starts as object != backing && flags as object != backing
    }

    ghost function Queued(): Queue
      requires Shape()
      reads this, starts, flags, backing
    {
      Queue(backing[..next], overflowed, flags[..], starts[..])
    }

    ghost predicate Ok(todo: set<nat>, scan: Scan, x: nat, k: nat)
      reads this, marks, starts, flags, backing
    {
      Shape() && Tracing(s, roots, marks[..], Queued(), todo, scan, x, k)
    }

    /** Record enough about an object that could not be pushed to find it again. */
    method MarkStackOverflow(t: nat)
      requires Shape() && t / 32 < flags.Length
      modifies starts, flags
      ensures flags[..] == old(flags[..])[t / 32 := true]
      ensures starts[..] == old(starts[..])[t / 32 := LowerStart(old(starts[t / 32]), t % 32)]
    {
      flags[t / 32] := true;
      if starts[t / 32] == NO_START || starts[t / 32] > t % 32 {
        starts[t / 32] := t % 32;
      }
    }

    ghost function Here(): Depth
      reads this, marks
    {
      Depth(marks[..], next, overflowed)
    }

    method Push(t: nat, ghost before: seq<bv32>, ghost todo: set<nat>, ghost scan: Scan, ghost x: nat, ghost k: nat)
      requires Shape() && Tracing(s, roots, before, Queued(), todo, scan, x, k)
      requires TurnsGrey(s, before, marks[..], t) && Reachable(s, roots, t)
      modifies this, starts, flags, backing
      ensures Ok(todo, scan, x, k)
      ensures if old(next) < 128 then next == old(next) + 1 && overflowed == old(overflowed)
                else next == old(next) && overflowed
    {
      hide Marked, Tracing, Reachable, TurnsGrey;
      ghost var m, q := marks[..], Queued();
      if next < 128 {
        PushKeeps(s, roots, before, m, q, todo, scan, x, k, t);
        backing[next] := t;
        next := next + 1;
        assert backing[..next] == q.stack + [t];
        assert Queued() == q.(stack := q.stack + [t]);
      } else {
        OverflowKeeps(s, roots, before, m, q, todo, scan, x, k, t);
        overflowed := true;
        MarkStackOverflow(t);
        assert Queued() == Overflow(q, t);
      }
      assert marks[..] == m;
    }

    /** Turn a white object grey and queue it. */
    method MarkPointer(w: Word, ghost todo: set<nat>, ghost scan: Scan, ghost x: nat, ghost k: nat)
      requires Ok(todo, scan, x, k)
      requires Names(s, w) ==> w.target < |s.mem| && 2 <= s.Size(w.target) && Reachable(s, roots, w.target)
      modifies this, marks, starts, flags, backing
      ensures Ok(todo, scan, x, k) && (Names(s, w) ==> Marked(marks[..], w.target)) && Advances(s, old(Here()), Here())
    {
      hide Marked, Tracing, Reachable, MarkedRange, Advances;
      AdvanceNone(s, Here());
      if !Names(s, w) {
        return;
      }
      ghost var before, q := marks[..], Queued();
      MarksLongEnough(s, roots, before, q, todo, scan, x, k, w.target);
      var was := MarkGreyIfNotMarked(marks, w.target);
      if was {
        return;
      }
      GreyMark(s, before, marks[..], w.target);
      assert Queued() == q;
      Push(w.target, before, todo, scan, x, k);
      PushAdvances(s, Depth(before, old(next), old(overflowed)), Here(), w.target);
    }
  
    /** Visit the words of a black object. */
    method IteratePointers(x: nat, ghost todo: set<nat>, ghost scan: Scan)
      requires Ok(todo, scan, x, x + 1) && x in s.objs && x < |s.mem| && Marked(marks[..], x)
      modifies this, marks, starts, flags, backing
      ensures Ok(todo, scan, 0, |s.mem|) && Advances(s, old(Here()), Here())
    {
      hide Marked, Tracing, Reachable, Advances, PointsTo;
      ghost var d := Here();
      AdvanceNone(s, d);
      InBounds(s, roots, marks[..], Queued(), todo, scan, x, x + 1);
      for k := x + 1 to x + s.Size(x)
        invariant Ok(todo, scan, x, k) && Advances(s, d, Here())
      {
        ghost var d1 := Here();
        StillMarked(s, d, d1, x);
        TargetReachable(s, roots, d1.marks, Queued(), todo, scan, x, k);
        MarkPointer(s.mem[k], todo, scan, x, k);
        AdvanceMore(s, d, d1, Here());
        TargetMarked(s, marks[..], x, k);
        WordVisited(s, roots, marks[..], Queued(), todo, scan, x, k);
      }
      ObjectVisited(s, roots, marks[..], Queued(), todo, scan, x, x + s.Size(x), 0);
    }

    /** Mark all words of an object. */
    method MarkAll(x: nat)
      requires Shape() && x < |s.mem| && 2 <= s.Size(x) && x + s.Size(x) < 32 * marks.Length
      modifies marks
      ensures MarkedRange(old(marks[..]), marks[..], x, x + s.Size(x))
    {
      hide MarkedRange;
      ByteSplit(x);
      var l, o, shift := x / 32, x % 32 / 8, x % 8;
      MarkAllBytewise(marks, l, o, shift, s.Size(x));
    }

    /** Take objects off the stack and scan them until it is empty. */
    method Empty(ghost todo: set<nat>)
      requires Ok(todo, NoScan, 0, |s.mem|)
      modifies this, marks, starts, flags, backing
      ensures Ok(todo, NoScan, 0, |s.mem|) && next == 0 && Advances(s, old(Here()), Here())
    {
      hide Marked, Tracing, MarkedRange, TurnsBlack;
      ghost var d := Here();
      while next != 0
        invariant Ok(todo, NoScan, 0, |s.mem|) && Advances(s, d, Here())
        decreases Work(s, Here())
      {
        ghost var d1, before, q := Here(), marks[..], Queued();
        next := next - 1;
        var x := backing[next];
        StackEntry(s, roots, before, q, todo, x);
        MarkAll(x);
        MarkedBlack(s, before, marks[..], x);
        PopKeeps(s, roots, before, marks[..], q, todo, NoScan, 0, x);
        assert backing[..next] == q.stack[..|q.stack| - 1];
        assert Queued() == q.(stack := q.stack[..|q.stack| - 1]);
        ghost var d2 := Here();
        PopAdvances(s, d1, d2);
        IteratePointers(x, todo, NoScan);
        AdvanceMore(s, d1, d2, Here());
        AdvanceMore(s, d, d1, Here());
      }
    }
  
    /** Scan the grey objects that start in a flagged card, walking from its recorded start. */
    method ScanCard(l: nat, ghost c: nat, ghost todo: set<nat>)
      requires Ok(todo, NoScan, 0, |s.mem|) && l < flags.Length && flags[l]
      requires c < |s.chunks| && s.chunks[c].start <= 32 * l && 32 * l + 32 <= s.chunks[c].end
      modifies this, marks, starts, flags, backing
      ensures Ok(todo - {l}, NoScan, 0, |s.mem|) && Advances(s, old(Here()), Here())
    {
      hide Marked, Tracing, MarkedRange, TurnsBlack, Advances, Grey;
      ghost var d, q, rest := Here(), Queued(), todo - {l};
      AdvanceNone(s, d);
      ClearCard(s, roots, marks[..], q, todo, l, 0);
      var pos := 32 * l + starts[l];
      flags[l] := false;
      assert Queued() == q.(flags := q.flags[l := false]);
      WalkStarts(s, roots, marks[..], Queued(), rest, l, pos, c);
      while pos < 32 * l + 32 && s.mem[pos] != Sentinel
        invariant Ok(rest, InCard(l, pos), 0, |s.mem|) && Advances(s, d, Here())
        invariant At(s, c, pos)
        decreases 32 * l + 32 - pos
      {
        ghost var d1, before, q1 := Here(), marks[..], Queued();
        WalkObject(s, roots, before, q1, rest, l, pos, c);
        if IsGrey(marks[..], pos) {
          MarkAll(pos);
          MarkedBlack(s, before, marks[..], pos);
          ScanBlack(s, roots, before, marks[..], q1, rest, l, pos, 0);
          assert Queued() == q1;
          ghost var d2 := Here();
          MarkAdvances(s, d1, d2);
          IteratePointers(pos, rest, InCard(l, pos + s.Size(pos)));
          AdvanceMore(s, d1, d2, Here());
          AdvanceMore(s, d, d1, Here());
        } else {
          PassObject(s, roots, before, q1, rest, l, pos, 0);
        }
        pos := pos + s.Size(pos);
      }
      WalkEnds(s, c, pos, roots, marks[..], Queued(), rest, l);
      CardDone(s, roots, marks[..], Queued(), rest, l, pos, 0, c);
    }
  
    /** None of the eight cards of a byte is flagged. */
    predicate NoFlags(byte: nat)
      requires 8 * byte + 8 <= flags.Length
      reads flags
    {
      forall l :: 8 * byte <= l < 8 * byte + 8 ==> !flags[l]
    }

    /** Search the eight cards of one byte of flags. */
    method SweepByte(byte: nat, ghost c: nat, ghost todo0: set<nat>) returns (ghost todo: set<nat>)
      requires Ok(todo0, NoScan, 0, |s.mem|) && 8 * byte + 8 <= flags.Length
      requires c < |s.chunks| && s.chunks[c].start <= 256 * byte && 256 * byte + 256 <= s.chunks[c].end
      modifies this, marks, starts, flags, backing
      ensures Ok(todo, NoScan, 0, |s.mem|) && todo <= todo0 && Advances(s, old(Here()), Here())
      ensures forall l :: 8 * byte <= l < 8 * byte + 8 ==> l !in todo
    {
      hide Marked, Tracing, Advances;
      ghost var d := Here();
      AdvanceNone(s, d);
      todo := todo0;
      var i := 0;
      while i < 8
        invariant i <= 8 && Ok(todo, NoScan, 0, |s.mem|) && todo <= todo0 && Advances(s, d, Here())
        invariant forall l :: 8 * byte <= l < 8 * byte + i ==> l !in todo
        decreases 8 - i
      {
        ghost var d1 := Here();
        if NoFlags(byte) {
          ghost var cards := Cards(8 * byte, 8);
          SkipCards(s, roots, marks[..], Queued(), todo, cards);
          todo := todo - cards;
          i := 8;
        } else {
          var l := 8 * byte + i;
          if flags[l] {
            ScanCard(l, c, todo);
            AdvanceMore(s, d, d1, Here());
          } else {
            SkipCard(s, roots, marks[..], Queued(), todo, l, 0);
          }
          todo := todo - {l};
          i := i + 1;
        }
      }
    }

    /** Search all flagged cards of all chunks. */
    method IterateOverflowedObjects(ghost todo0: set<nat>) returns (ghost todo: set<nat>)
      requires Ok(todo0, NoScan, 0, |s.mem|) && next == 0 && WholePages(s)
      modifies this, marks, starts, flags, backing
      ensures Ok(todo, NoScan, 0, |s.mem|) && next == 0 && Advances(s, old(Here()), Here())
      ensures forall c, l :: 0 <= c < |s.chunks| && s.chunks[c].start / 32 <= l < s.chunks[c].end / 32 ==> l !in todo
    {
      hide Marked, Tracing, Advances;
      ghost var d := Here();
      AdvanceNone(s, d);
      todo := todo0;
      for c := 0 to |s.chunks|
        invariant Ok(todo, NoScan, 0, |s.mem|) && next == 0 && Advances(s, d, Here())
        invariant forall b, l :: 0 <= b < c && s.chunks[b].start / 32 <= l < s.chunks[b].end / 32 ==> l !in todo
      {
        var byte, limit := s.chunks[c].start / 256, s.chunks[c].end / 256;
        ghost var before := todo;
        ByteRange(s, roots, marks[..], Queued(), todo, c);
        while byte < limit
          invariant s.chunks[c].start / 256 <= byte <= limit
          invariant Ok(todo, NoScan, 0, |s.mem|) && next == 0 && Advances(s, d, Here()) && todo <= before
          invariant forall l :: s.chunks[c].start / 32 <= l < 8 * byte ==> l !in todo
        {
          ghost var d1 := Here();
          todo := SweepByte(byte, c, todo);
          AdvanceMore(s, d, d1, Here());
          ghost var d2 := Here();
          Empty(todo);
          AdvanceMore(s, d, d2, Here());
          byte := byte + 1;
        }
      }
    }

    /** Drain the stack, and search the heap for what did not fit on it, until nothing is grey. */
    method Process()
      requires Ok({}, NoScan, 0, |s.mem|) && WholePages(s)
      modifies this, marks, starts, flags, backing
      ensures Ok({}, NoScan, 0, |s.mem|) && next == 0 && !overflowed && MoreMarks(old(marks[..]), marks[..])
      ensures forall l :: 0 <= l < flags.Length ==> !flags[l]
    {
      hide Marked, Tracing, MoreMarks, Unmarked;
      ghost var m := marks[..];
      MoreSame(m);
      while next != 0 || overflowed
        invariant Ok({}, NoScan, 0, |s.mem|) && MoreMarks(m, marks[..])
        decreases |Unmarked(s, marks[..])|, if overflowed then 1 else 0, next
      {
        ghost var d1 := Here();
        Empty({});
        MoreTwice(m, d1.marks, marks[..]);
        if overflowed {
          ghost var d2, cards, q := Here(), Cards(0, flags.Length), Queued();
          SweepStarts(s, roots, marks[..], q, cards, 0);
          overflowed := false;
          assert Queued() == q.(overflowed := false);
          ghost var todo := IterateOverflowedObjects(cards);
          MoreTwice(m, d2.marks, marks[..]);
          SweepEnds(s, roots, marks[..], Queued(), todo, 0);
        }
      }
      NoFlagLeft(s, roots, marks[..], Queued(), 0);
    }

    /** Mark everything that can be reached from the roots, and nothing else. */
    method MarkReachable(words: seq<Word>)
      requires Ok({}, NoScan, 0, |s.mem|) && WholePages(s)
      requires roots == set i | 0 <= i < |words| && Names(s, words[i]) :: words[i].target
      requires forall i :: 0 <= i < |words| && Names(s, words[i]) ==>
                words[i].target < |s.mem| && 2 <= s.Size(words[i].target)
      modifies this, marks, starts, flags, backing
      ensures Ok({}, NoScan, 0, |s.mem|) && next == 0 && !overflowed && RootsMarked(s, roots, marks[..])
      ensures forall l :: 0 <= l < flags.Length ==> !flags[l]
      ensures forall a :: a in s.objs ==> a < |s.mem| && (Marked(marks[..], a) <==> Reachable(s, roots, a))
      ensures forall a :: a in s.objs && a < |s.mem| ==>
                if Reachable(s, roots, a) then Black(s, marks[..], a) else White(s, marks[..], a)
    {
      hide Marked, Tracing, MoreMarks, Unmarked, Reachable, Black, White;
      for i := 0 to |words|
        invariant Ok({}, NoScan, 0, |s.mem|)
        invariant forall j :: 0 <= j < i && Names(s, words[j]) ==> Marked(marks[..], words[j].target)
      {
        if Names(s, words[i]) { ReachRoot(s, roots, words[i].target); }
        ghost var before := marks[..];
        MarkPointer(words[i], {}, NoScan, 0, |s.mem|);
        MarksStay(s, before, marks[..], words, i);
      }
      ghost var before := marks[..];
      Process();
      MarksStay(s, before, marks[..], words, |words|);
      assert RootsMarked(s, roots, marks[..]);
      forall a | a in s.objs
        ensures a < |s.mem| && (Marked(marks[..], a) <==> Reachable(s, roots, a))
        ensures if Reachable(s, roots, a) then Black(s, marks[..], a) else White(s, marks[..], a)
      {
        MarkedIffReachable(s, roots, marks[..], Queued(), 0, a);
      }
    }
  }

  /** Chunks consist of whole pages, so a byte of card flags never covers two of them. */
  ghost predicate WholePages(s: Space) {
    forall c :: 0 <= c < |s.chunks| ==> s.chunks[c].start % 1024 == 0 && s.chunks[c].end % 1024 == 0
  }

  ghost function Cards(first: nat, n: nat): (r: set<nat>)
    ensures forall l: nat :: l in r <==> first <= l < first + n
  {
    if n == 0 then {} else Cards(first, n - 1) + {first + n - 1}
  }

  lemma SkipCards(s: Space, roots: set<nat>, marks: seq<bv32>, q: Queue, todo: set<nat>, cards: set<nat>)
    requires Tracing(s, roots, marks, q, todo, NoScan, 0, |s.mem|)
    requires forall l :: l in cards ==> l < |q.flags| && !q.flags[l]
    ensures Tracing(s, roots, marks, q, todo - cards, NoScan, 0, |s.mem|)
  {
    hide Marked, Space.Valid, Scanned, MarkedAreReachable, ColoursOk;
    forall a | a in s.objs && a < |s.mem| && Grey(s, marks, a)
      ensures Waiting(q, todo - cards, NoScan, a)
    {
      assert Waiting(q, todo, NoScan, a);
    }
  }

  lemma ByteRange(s: Space, roots: set<nat>, marks: seq<bv32>, q: Queue, todo: set<nat>, c: nat)
    requires Tracing(s, roots, marks, q, todo, NoScan, 0, |s.mem|) && WholePages(s) && c < |s.chunks|
    ensures var ch := s.chunks[c];
            && ch.start == 256 * (ch.start / 256) && ch.end == 256 * (ch.end / 256)
            && ch.start / 32 == 8 * (ch.start / 256)
            && ch.end / 32 == 8 * (ch.end / 256) && ch.start <= ch.end && 8 * (ch.end / 256) <= |q.flags|
  {
    hide ColoursOk, StackOk, GreysWait, Scanned, MarkedAreReachable, Space.Valid;
    ValidChunks(s);
    PageBytes(s.chunks[c].start);
    PageBytes(s.chunks[c].end);
  }

  lemma ByteSplit(x: nat)
    ensures x == 32 * (x / 32) + 8 * (x % 32 / 8) + x % 8 && x % 32 / 8 < 4
  {
    var y := x % 32;
    assert x % 8 == y % 8;
  }

  lemma PageBytes(x: nat)
    requires x % 1024 == 0
    ensures x == 256 * (x / 256) && x / 32 == 8 * (x / 256)
  {
    var k := x / 1024;
    assert x == 1024 * k;
    assert x / 256 == 4 * k;
    assert x / 32 == 32 * k;
  }

  lemma MoreSame(m: seq<bv32>)
    ensures MoreMarks(m, m)
  {
  }

  lemma MoreTwice(m0: seq<bv32>, m1: seq<bv32>, m2: seq<bv32>)
    requires MoreMarks(m0, m1) && MoreMarks(m1, m2)
    ensures MoreMarks(m0, m2)
  {
    hide Marked;
  }

  lemma MarksStay(s: Space, marks: seq<bv32>, marks': seq<bv32>, words: seq<Word>, n: nat)
    requires MoreMarks(marks, marks') && n <= |words|
    requires forall j :: 0 <= j < n && Names(s, words[j]) ==> Marked(marks, words[j].target)
    ensures forall j :: 0 <= j < n && Names(s, words[j]) ==> Marked(marks', words[j].target)
  {
    hide Marked;
  }

  /** An object of chunk c, or its sentinel. */
  ghost predicate At(s: Space, c: nat, pos: nat) {
    c < |s.chunks| && pos < |s.mem| && s.chunks[c].start <= pos < s.chunks[c].end
        && (pos in s.objs || pos == s.chunks[c].end - 1)
  }

  lemma WalkStarts(s: Space, roots: set<nat>, marks: seq<bv32>, q: Queue, todo: set<nat>, l: nat, pos: nat, c: nat)
    requires Tracing(s, roots, marks, q, todo, InCard(l, pos), 0, |s.mem|) && pos in s.objs
    requires 32 * l <= pos < 32 * l + 32
    requires c < |s.chunks| && s.chunks[c].start <= 32 * l && 32 * l + 32 <= s.chunks[c].end
    ensures At(s, c, pos)
  {
    ObjectBounds(s, pos);
  }

  /** One step of the walk: an object with a size, and behind it the next one or the sentinel. */
  lemma WalkObject(s: Space, roots: set<nat>, marks: seq<bv32>, q: Queue, todo: set<nat>, l: nat, pos: nat, c: nat)
    requires Tracing(s, roots, marks, q, todo, InCard(l, pos), 0, |s.mem|) && At(s, c, pos) && s.mem[pos] != Sentinel
    ensures pos in s.objs && 0 < s.Size(pos) && pos + s.Size(pos) < 32 * |marks| && (pos + 1) / 32 < |marks|
    ensures At(s, c, pos + s.Size(pos))
    ensures (Marked(marks, pos) && !Marked(marks, pos + 1)) <==> Grey(s, marks, pos)
    ensures Grey(s, marks, pos) ==> 2 <= s.Size(pos) && Marked(marks, pos)
  {
    ChunkWalk(s, c, pos);
    hide Space.Valid, Marked, GreysWait, Scanned, MarkedAreReachable;
    ObjectBounds(s, pos);
    assert Coloured(s, marks, pos);
  }

  lemma ChunkWalk(s: Space, c: nat, pos: nat)
    requires s.Valid() && At(s, c, pos) && s.mem[pos] != Sentinel
    ensures pos in s.objs && 0 < s.Size(pos) && At(s, c, pos + s.Size(pos))
  {
    hide Space.Valid;
    ChunkTiled(s, c, pos);
  }

  lemma ChunkTiled(s: Space, c: nat, pos: nat)
    requires s.Valid() && c < |s.chunks|
    ensures 0 < s.chunks[c].end <= |s.mem| && s.mem[s.chunks[c].end - 1] == Sentinel
    ensures pos in s.objs && s.chunks[c].start <= pos < s.chunks[c].end ==> s.ObjectOk(s.chunks[c], pos)
  {
    assert s.Tiled(s.chunks[c]);
    hide Space.Valid;
  }

  lemma WalkEnds(s: Space, c: nat, pos: nat, roots: set<nat>, marks: seq<bv32>, q: Queue, todo: set<nat>, l: nat)
    requires Tracing(s, roots, marks, q, todo, InCard(l, pos), 0, |s.mem|) && At(s, c, pos)
    requires 32 * l + 32 <= pos || s.mem[pos] == Sentinel
    ensures 32 * l + 32 <= pos || pos == s.chunks[c].end - 1
  {
    hide Space.Valid, ColoursOk, StackOk, CardsOk, GreysWait, Scanned, MarkedAreReachable;
    ChunkTiled(s, c, pos);
  }

  lemma MarkAdvances(s: Space, d: Depth, d': Depth)
    requires MoreMarks(d.marks, d'.marks) && d.next == d'.next && d'.overflowed == d.overflowed
    ensures Advances(s, d, d')
  {
    hide Marked;
    FewerUnmarked(s, d.marks, d'.marks);
  }

  lemma InBounds(s: Space, roots: set<nat>, marks: seq<bv32>, q: Queue, todo: set<nat>, scan: Scan, x: nat, k: nat)
    requires Tracing(s, roots, marks, q, todo, scan, x, k) && x in s.objs
    ensures x < |s.mem| && 0 < s.Size(x) && x + s.Size(x) < |s.mem| <= 32 * |marks|
  {
    ObjectBounds(s, x);
  }

  lemma StillMarked(s: Space, d: Depth, d': Depth, x: nat)
    requires Advances(s, d, d') && Marked(d.marks, x)
    ensures Marked(d'.marks, x)
  {
    hide Marked;
  }

  /** What a marked object points to is reachable and has two words or more. */
  lemma TargetReachable(s: Space, roots: set<nat>, marks: seq<bv32>, q: Queue, todo: set<nat>, scan: Scan, x: nat,
                        k: nat)
    requires Tracing(s, roots, marks, q, todo, scan, x, k) && x in s.objs && x < |s.mem| && Marked(marks, x)
    requires x < k < x + s.Size(x) && k < |s.mem|
    ensures Names(s, s.mem[k]) ==>
              s.mem[k].target < |s.mem| && 2 <= s.Size(s.mem[k].target) && Reachable(s, roots, s.mem[k].target)
  {
    hide Marked, GreysWait, Scanned, ColoursOk, Space.Valid;
    if Names(s, s.mem[k]) {
      assert PointsTo(s, x, k, s.mem[k].target);
      assert Reachable(s, roots, x);
      ReachNext(s, roots, x, k, s.mem[k].target);
    }
  }

  lemma TargetMarked(s: Space, marks: seq<bv32>, x: nat, k: nat)
    requires k < |s.mem| && (Names(s, s.mem[k]) ==> Marked(marks, s.mem[k].target))
    ensures forall t: nat {:trigger PointsTo(s, x, k, t)} :: PointsTo(s, x, k, t) ==> Marked(marks, t)
  {
    hide Marked;
  }

  lemma StackEntry(s: Space, roots: set<nat>, marks: seq<bv32>, q: Queue, todo: set<nat>, x: nat)
    requires Tracing(s, roots, marks, q, todo, NoScan, 0, |s.mem|) && x in q.stack
    ensures x in s.objs && x < |s.mem| && 2 <= s.Size(x) && Marked(marks, x) && x + s.Size(x) < 32 * |marks|
  {
    hide Marked;
    ObjectBounds(s, x);
  }

  lemma MarkedBlack(s: Space, marks: seq<bv32>, marks': seq<bv32>, x: nat)
    requires x in s.objs && x < |s.mem| && 2 <= s.Size(x) && Marked(marks, x)
    requires MarkedRange(marks, marks', x, x + s.Size(x))
    ensures TurnsBlack(s, marks, marks', x) && MoreMarks(marks, marks') && Marked(marks', x)
  {
    hide Marked;
  }

  lemma PopAdvances(s: Space, d: Depth, d': Depth)
    requires MoreMarks(d.marks, d'.marks) && 0 < d.next == d'.next + 1 && d'.overflowed == d.overflowed
    ensures Advances(s, d, d') && Work(s, d') < Work(s, d)
  {
    hide Marked;
    FewerUnmarked(s, d.marks, d'.marks);
  }

  lemma MarksLongEnough(s: Space, roots: set<nat>, marks: seq<bv32>, q: Queue, todo: set<nat>, scan: Scan, x: nat,
                        k: nat, t: nat)
    requires Tracing(s, roots, marks, q, todo, scan, x, k) && t < |s.mem|
    ensures t / 32 < |marks|
  {
  }

  lemma GreyMark(s: Space, marks: seq<bv32>, marks': seq<bv32>, t: nat)
    requires t < |s.mem| && t / 32 < |marks| && MarkedRange(marks, marks', t, t + 1)
    ensures Marked(marks', t) && MoreMarks(marks, marks')
  {
    hide Marked;
  }

  lemma PushAdvances(s: Space, d: Depth, d': Depth, t: nat)
    requires MoreMarks(d.marks, d'.marks) && t in s.objs && !Marked(d.marks, t) && Marked(d'.marks, t)
    requires d'.next <= d.next + 1
    ensures Advances(s, d, d')
  {
    hide Marked;
    FewerUnmarked(s, d.marks, d'.marks);
    OneFewer(s, d.marks, d'.marks, t);
  }
}
