/**
 The old space as the collector sees it. Addresses count words, so a line (a card) is 32 words and
 one mark word covers exactly one line.
 */
module GcHeap {
  import opened Bits

  /** A word of heap memory. Object sizes are read from the header word; interior words are arbitrary. */
  datatype Word = Sentinel | Header(size: nat) | Pointer(target: int) | Data(value: int)

  datatype Chunk = Chunk(start: nat, end: nat) {
    /** The last word of every chunk holds the sentinel. */
    function UsableEnd(): int { end - 1 }
  }

  /**
   A space: its memory, its chunks in list order, the addresses where objects start and those of the
   live ones among them. Fillers and free-list chunks are dead objects.
   */
  datatype Space = Space(mem: seq<Word>, chunks: seq<Chunk>, objs: set<nat>, live: set<nat>) {

    function Size(a: nat): nat
      requires a < |mem|
    {
      if mem[a].Header? then mem[a].size else 1
    }

    /** Chunks are line aligned and, as Space::Append keeps them, in increasing address order. */
    ghost predicate ChunksOk() {
      && (forall c :: 0 <= c < |chunks| ==>
            chunks[c].start % 32 == 0 && chunks[c].end % 32 == 0 && chunks[c].start < chunks[c].end <= |mem|)
      && (forall c, d :: 0 <= c < d < |chunks| ==> chunks[c].end <= chunks[d].start)
    }

    /** An object that starts at a ends where the next one starts, or at the sentinel. */
    ghost predicate ObjectOk(ch: Chunk, a: nat)
      requires ch.end <= |mem|
    {
      && ch.start <= a < ch.UsableEnd()
      && mem[a].Header? && 0 < mem[a].size
      && a + mem[a].size <= ch.UsableEnd()
      && (a + mem[a].size == ch.UsableEnd() || a + mem[a].size in objs)
      && (forall w :: a < w < a + mem[a].size ==> w !in objs)
    }

    /** Objects tile the chunk from its start to the sentinel. */
    ghost predicate Tiled(ch: Chunk) {
      && ch.start < ch.end <= |mem|
      && (ch.start in objs || ch.start == ch.UsableEnd())
      && mem[ch.UsableEnd()] == Sentinel
      && ch.UsableEnd() !in objs
      && (forall a {:trigger ObjectOk(ch, a)} :: a in objs && ch.start <= a < ch.end ==> ObjectOk(ch, a))
    }

    ghost predicate InSomeChunk(a: nat) {
      exists c :: 0 <= c < |chunks| && chunks[c].start <= a < chunks[c].UsableEnd()
    }

    ghost predicate Valid() {
      && ChunksOk()
      && (forall c :: 0 <= c < |chunks| ==> Tiled(chunks[c]))
      && (forall a {:trigger InSomeChunk(a)} :: a in objs ==> InSomeChunk(a))
      && live <= objs
    }

    /** Line l belongs to a chunk. */
    ghost predicate ChunkCard(l: int) {
      exists c :: 0 <= c < |chunks| && chunks[c].start / 32 <= l < chunks[c].end / 32
    }

    /** Total size of the live objects that start in [lo, hi). */
    ghost function LiveWords(lo: nat, hi: nat): nat
      requires hi <= |mem|
      decreases hi
    {
      if hi <= lo then 0
      else LiveWords(lo, hi - 1) + (if hi - 1 in live then Size(hi - 1) else 0)
    }

    /** A place where the walk over the objects of a chunk can stop: an object start or the sentinel. */
    ghost predicate Boundary(ch: Chunk, b: nat) {
      b in objs || b == ch.UsableEnd()
    }

    /** The first object start at or after p in a chunk, or the sentinel if there is none. */
    ghost function NextBoundary(ch: Chunk, p: nat): (b: nat)
      requires p < ch.end
      ensures p <= b < ch.end && Boundary(ch, b)
      ensures forall w :: p <= w < b ==> w !in objs
      decreases ch.end - p
    {
      if Boundary(ch, p) then p else NextBoundary(ch, p + 1)
    }

    /** The object that covers word w. */
    ghost function Owner(ch: Chunk, w: nat): (o: nat)
      requires Tiled(ch) && ch.start <= w < ch.UsableEnd()
      ensures o in objs && ch.start <= o <= w < o + Size(o)
      ensures forall v :: o < v <= w ==> v !in objs
      decreases w
    {
      if w in objs then
        assert ObjectOk(ch, w);
        w
      else
        var o := Owner(ch, w - 1);
        assert ObjectOk(ch, o);
        o
    }
  }

  // ----- sums of live words -----

  lemma {:induction false} LiveWordsSplit(s: Space, a: nat, b: nat, c: nat)
    requires a <= b <= c <= |s.mem|
    ensures s.LiveWords(a, c) == s.LiveWords(a, b) + s.LiveWords(b, c)
    decreases c
  {
    if b < c { LiveWordsSplit(s, a, b, c - 1); }
  }

  lemma {:induction false} LiveWordsNone(s: Space, a: nat, b: nat)
    requires a <= b <= |s.mem|
    requires forall w :: a <= w < b ==> w !in s.live
    ensures s.LiveWords(a, b) == 0
    decreases b
  {
    if a < b { LiveWordsNone(s, a, b - 1); }
  }

  lemma LiveWordsObject(s: Space, a: nat, b: nat)
    requires a < b <= |s.mem|
    requires forall w :: a < w < b ==> w !in s.live
    ensures s.LiveWords(a, b) == if a in s.live then s.Size(a) else 0
  {
    LiveWordsSplit(s, a, a + 1, b);
    LiveWordsNone(s, a + 1, b);
    assert s.LiveWords(a, a) == 0;
  }

  /** Live objects do not overlap: those that start in [lo, hi) and end by `end` fit in between. */
  lemma {:induction false} LiveWordsDense(s: Space, lo: nat, hi: nat, end: nat)
    requires s.Valid() && hi <= |s.mem|
    requires lo <= end
    requires forall b :: b in s.live && lo <= b < hi ==> b + s.Size(b) <= end
    ensures s.LiveWords(lo, hi) <= end - lo
    decreases hi
  {
    if lo < hi {
      var b := hi - 1;
      if b in s.live {
        forall a | a in s.live && lo <= a < b
          ensures a + s.Size(a) <= b
        {
          LiveDisjoint(s, a, b);
        }
        LiveWordsDense(s, lo, b, b);
      } else {
        LiveWordsDense(s, lo, b, end);
      }
    }
  }

  lemma LiveDisjoint(s: Space, a: nat, b: nat)
    requires s.Valid() && (a in s.objs || a in s.live) && (b in s.objs || b in s.live) && a < b
    ensures a < |s.mem| && a + s.Size(a) <= b
  {
    var c := ChunkIndex(s, a);
    var d := ChunkIndex(s, b);
    assert s.ObjectOk(s.chunks[c], a);
    if c < d { assert s.chunks[c].end <= s.chunks[d].start; }
  }

  /** The index of the chunk an object lies in. */
  ghost function ChunkIndex(s: Space, a: nat): (c: nat)
    requires s.Valid() && a in s.objs
    ensures c < |s.chunks| && s.chunks[c].start <= a < s.chunks[c].UsableEnd()
    ensures s.ObjectOk(s.chunks[c], a)
  {
    assert s.InSomeChunk(a);
    var c :| 0 <= c < |s.chunks| && s.chunks[c].start <= a < s.chunks[c].UsableEnd();
    c
  }

  // ----- mark bits -----

  ghost predicate Marked(marks: seq<bv32>, w: nat) {
    w / 32 < |marks| && Bit(marks[w / 32], w % 32)
  }

  /** How many words of [lo, hi) are marked. */
  ghost function MarkCount(marks: seq<bv32>, lo: nat, hi: nat): nat
    decreases hi
  {
    if hi <= lo then 0 else MarkCount(marks, lo, hi - 1) + Unit(Marked(marks, hi - 1))
  }

  lemma {:induction false} MarkCountSplit(marks: seq<bv32>, a: nat, b: nat, c: nat)
    requires a <= b <= c
    ensures MarkCount(marks, a, c) == MarkCount(marks, a, b) + MarkCount(marks, b, c)
    decreases c
  {
    hide Marked;
    if b < c { MarkCountSplit(marks, a, b, c - 1); }
  }

  lemma {:induction false} MarkCountInLine(marks: seq<bv32>, line: nat, k: nat)
    requires line < |marks| && k <= 32
    ensures MarkCount(marks, 32 * line, 32 * line + k) == Ones(marks[line], k)
    decreases k
  {
    hide Bit;
    if k > 0 {
      MarkCountInLine(marks, line, k - 1);
      var w := 32 * line + k - 1;
      assert w / 32 == line && w % 32 == k - 1;
    }
  }

  lemma {:induction false} MarkCountUniform(marks: seq<bv32>, a: nat, b: nat, value: bool)
    requires a <= b
    requires forall w :: a <= w < b ==> Marked(marks, w) == value
    ensures MarkCount(marks, a, b) == if value then b - a else 0
    decreases b
  {
    hide Marked;
    if a < b { MarkCountUniform(marks, a, b - 1, value); }
  }

  ghost predicate AllMarked(marks: seq<bv32>, lo: nat, hi: nat) {
    forall w :: lo <= w < hi ==> Marked(marks, w)
  }

  ghost predicate NoneMarked(marks: seq<bv32>, lo: nat, hi: nat) {
    forall w :: lo <= w < hi ==> !Marked(marks, w)
  }

  /** A live object is marked at its first word; a dead one is not marked anywhere. */
  ghost predicate ObjectMarks(s: Space, marks: seq<bv32>, a: nat)
    requires a < |s.mem|
  {
    if a in s.live then Marked(marks, a) else NoneMarked(marks, a, a + s.Size(a))
  }

  ghost predicate MarksAgree(s: Space, marks: seq<bv32>, ch: Chunk)
    requires ch.start < ch.end <= |s.mem|
  {
    && (forall a {:trigger ObjectMarks(s, marks, a)} :: a in s.objs && ch.start <= a < ch.end ==>
           ObjectMarks(s, marks, a))
    && !Marked(marks, ch.UsableEnd())
  }

  /**
   From p on, live objects are black: every word is marked. Words before the first object start at or
   after p carry no mark.
   */
  ghost predicate BlackFrom(s: Space, marks: seq<bv32>, ch: Chunk, p: nat)
    requires p < ch.end <= |s.mem|
  {
    && NoneMarked(marks, p, s.NextBoundary(ch, p))
    && (forall a :: a in s.live && p <= a < ch.end ==> AllMarked(marks, a, a + s.Size(a)))
  }

  /** Counting marks and adding up live sizes agree between object boundaries. */
  lemma {:induction false} CountIsLive(s: Space, marks: seq<bv32>, ch: Chunk, a: nat, b: nat)
    requires s.Tiled(ch) && s.live <= s.objs && MarksAgree(s, marks, ch)
    requires ch.start <= a <= b < ch.end && s.Boundary(ch, a) && s.Boundary(ch, b)
    requires BlackFrom(s, marks, ch, a)
    ensures MarkCount(marks, a, b) == s.LiveWords(a, b)
    decreases b - a
  {
    hide Marked;
    if a < b {
      assert s.ObjectOk(ch, a);
      assert ObjectMarks(s, marks, a);
      var n := a + s.Size(a);
      assert n <= b;
      MarkCountUniform(marks, a, n, a in s.live);
      LiveWordsObject(s, a, n);
      CountIsLive(s, marks, ch, n, b);
      MarkCountSplit(marks, a, n, b);
      LiveWordsSplit(s, a, n, b);
    }
  }

  /** The same from any position p onward, once the words before the first object start carry no mark. */
  lemma CountIsLiveFrom(s: Space, marks: seq<bv32>, ch: Chunk, p: nat, b: nat)
    requires s.Tiled(ch) && s.live <= s.objs && MarksAgree(s, marks, ch)
    requires ch.start <= p <= b < ch.end && s.Boundary(ch, b)
    requires BlackFrom(s, marks, ch, p)
    ensures MarkCount(marks, p, b) == s.LiveWords(p, b)
  {
    hide Marked;
    var f := s.NextBoundary(ch, p);
    assert f <= b;
    MarkCountUniform(marks, p, f, false);
    LiveWordsNone(s, p, f);
    CountIsLive(s, marks, ch, f, b);
    MarkCountSplit(marks, p, f, b);
    LiveWordsSplit(s, p, f, b);
  }

  /** At an arbitrary end point the marks counted so far never exceed the live sizes started so far. */
  lemma CountAtMostLive(s: Space, marks: seq<bv32>, ch: Chunk, p: nat, q: nat)
    requires s.Tiled(ch) && s.live <= s.objs && MarksAgree(s, marks, ch)
    requires ch.start <= p < ch.end && p <= q <= ch.end
    requires BlackFrom(s, marks, ch, p)
    ensures MarkCount(marks, p, q) <= s.LiveWords(p, q)
    ensures q == ch.end ==> MarkCount(marks, p, q) == s.LiveWords(p, q)
  {
    hide Marked;
    if q == ch.end {
      CountIsLiveFrom(s, marks, ch, p, ch.UsableEnd());
    } else {
      var b := s.NextBoundary(ch, q);
      CountIsLiveFrom(s, marks, ch, p, b);
      MarkCountSplit(marks, p, q, b);
      LiveWordsSplit(s, p, q, b);
      LiveWordsNone(s, q, b);
    }
  }
}
