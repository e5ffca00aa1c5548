/**
 The marking phase. White objects have no marks, grey ones have their first word marked and wait to be
 scanned, black ones have all words marked. A grey object waits on the marking stack or, when the stack was
 full, in a card whose overflow flag is set.
 */
module Marking {
  import opened GcHeap
  import opened MarkBits
  import opened PlanSteps

  // ----- reachability -----

  /** Word k of object a is a pointer to object t. */
  ghost predicate PointsTo(s: Space, a: nat, k: nat, t: nat) {
    a in s.objs && a < |s.mem| && a < k < a + s.Size(a) && k < |s.mem| && s.mem[k] == Pointer(t) && t in s.objs
  }

  ghost predicate Refers(s: Space, a: nat, t: nat) {
    exists k :: PointsTo(s, a, k, t)
  }

  ghost predicate Path(s: Space, roots: set<nat>, p: seq<nat>) {
    && p != [] && p[0] in roots && p[0] in s.objs
    && forall i {:trigger Refers(s, p[i], p[i + 1])} :: 0 <= i < |p| - 1 ==> Refers(s, p[i], p[i + 1])
  }

  ghost predicate Reachable(s: Space, roots: set<nat>, a: nat) {
    exists p :: Path(s, roots, p) && p[|p| - 1] == a
  }

  lemma ReachRoot(s: Space, roots: set<nat>, a: nat)
    requires a in roots && a in s.objs
    ensures Reachable(s, roots, a)
  {
    assert Path(s, roots, [a]);
  }

  lemma ReachNext(s: Space, roots: set<nat>, a: nat, k: nat, t: nat)
    requires Reachable(s, roots, a) && PointsTo(s, a, k, t)
    ensures Reachable(s, roots, t)
  {
    var p :| Path(s, roots, p) && p[|p| - 1] == a;
    var q := p + [t];
    forall i | 0 <= i < |q| - 1
      ensures Refers(s, q[i], q[i + 1])
    {
      if i < |p| - 1 {
        assert Refers(s, p[i], p[i + 1]);
      } else {
        assert Refers(s, a, t);
      }
    }
    assert Path(s, roots, q);
  }

  // ----- colours -----

  /** Objects that can be reached have at least two words, so grey and black differ. */
  ghost predicate Traceable(s: Space, roots: set<nat>) {
    s.Valid() && forall a: nat {:trigger Reachable(s, roots, a)} :: Reachable(s, roots, a) ==>
        a < |s.mem| && 2 <= s.Size(a)
  }

  ghost predicate White(s: Space, marks: seq<bv32>, a: nat)
    requires a < |s.mem|
  {
    NoneMarked(marks, a, a + s.Size(a))
  }

  ghost predicate Grey(s: Space, marks: seq<bv32>, a: nat)
    requires a < |s.mem|
  {
    2 <= s.Size(a) && Marked(marks, a) && NoneMarked(marks, a + 1, a + s.Size(a))
  }

  ghost predicate Black(s: Space, marks: seq<bv32>, a: nat)
    requires a < |s.mem|
  {
    2 <= s.Size(a) && AllMarked(marks, a, a + s.Size(a))
  }

  ghost predicate Coloured(s: Space, marks: seq<bv32>, a: nat) {
    a < |s.mem| && (White(s, marks, a) || Grey(s, marks, a) || Black(s, marks, a))
  }

  /** Every object has a colour, and sentinels carry no mark. */
  ghost predicate ColoursOk(s: Space, marks: seq<bv32>) {
    && |s.mem| <= 32 * |marks|
    && (forall a {:trigger Coloured(s, marks, a)} :: a in s.objs ==> Coloured(s, marks, a))
    && (forall c {:trigger s.chunks[c]} :: 0 <= c < |s.chunks| ==>
           0 < s.chunks[c].end && !Marked(marks, s.chunks[c].end - 1))
  }

  // ----- the queue of grey objects -----

  datatype Queue = Queue(stack: seq<nat>, overflowed: bool, flags: seq<bool>, starts: seq<int>)

  /** A card that is being searched from a position on. */
  datatype Scan = NoScan | InCard(card: nat, pos: nat)

  /** Walking the card from its recorded start will come across a. */
  ghost predicate InFlaggedCard(q: Queue, a: nat) {
    && a / 32 < |q.flags| && a / 32 < |q.starts| && q.flags[a / 32]
    && q.starts[a / 32] != NO_START && q.starts[a / 32] <= a % 32
  }

  /** Grey object a will be found: on the stack, in a flagged card, or by the search that is going on. */
  ghost predicate Waiting(q: Queue, todo: set<nat>, scan: Scan, a: nat) {
    || a in q.stack
    || (InFlaggedCard(q, a) && (q.overflowed || a / 32 in todo))
    || (scan.InCard? && a / 32 == scan.card && scan.pos <= a)
  }

  ghost predicate GreysWait(s: Space, marks: seq<bv32>, q: Queue, todo: set<nat>, scan: Scan) {
    forall a {:trigger Waiting(q, todo, scan, a)} :: a in s.objs && a < |s.mem| && Grey(s, marks, a) ==>
        Waiting(q, todo, scan, a)
  }

  ghost predicate StackOk(s: Space, marks: seq<bv32>, q: Queue) {
    |q.stack| <= 128 && forall x :: x in q.stack ==> x in s.objs && x < |s.mem| && 2 <= s.Size(x) && Marked(marks, x)
  }

  /** Flagged cards belong to chunks and have a start, and starts are objects of their card. */
  ghost predicate CardsOk(s: Space, q: Queue) {
    && |q.flags| == |q.starts| && |s.mem| <= 32 * |q.starts|
    && (forall l {:trigger q.flags[l]} :: 0 <= l < |q.flags| && q.flags[l] ==>
           s.ChunkCard(l) && q.starts[l] != NO_START)
    && (forall l {:trigger q.starts[l]} :: 0 <= l < |q.starts| && s.ChunkCard(l) && q.starts[l] != NO_START ==>
           0 <= q.starts[l] < 32 && 32 * l + q.starts[l] in s.objs)
  }

  /** A flag is set only while an overflow is pending or the card is still to be searched. */
  ghost predicate FlagsPending(q: Queue, todo: set<nat>) {
    forall l: nat {:trigger q.flags[l]} :: l < |q.flags| && q.flags[l] ==> q.overflowed || l in todo
  }

  // ----- what has been scanned -----

  /** Black objects point to marked ones only, except for words of x from k on. */
  ghost predicate Scanned(s: Space, marks: seq<bv32>, x: nat, k: nat) {
    forall a: nat, j: nat, t: nat {:trigger PointsTo(s, a, j, t)} ::
      PointsTo(s, a, j, t) && Marked(marks, a + 1) && !(a == x && k <= j) ==> Marked(marks, t)
  }

  ghost predicate MarkedAreReachable(s: Space, roots: set<nat>, marks: seq<bv32>) {
    forall a {:trigger Reachable(s, roots, a)} :: a in s.objs && Marked(marks, a) ==> Reachable(s, roots, a)
  }

  ghost predicate Tracing(s: Space, roots: set<nat>, marks: seq<bv32>, q: Queue, todo: set<nat>, scan: Scan, x: nat,
                          k: nat)
  {
    && Traceable(s, roots) && ColoursOk(s, marks) && StackOk(s, marks, q) && CardsOk(s, q) && FlagsPending(q, todo)
    && GreysWait(s, marks, q, todo, scan) && Scanned(s, marks, x, k) && MarkedAreReachable(s, roots, marks)
  }

  // ----- marks inside one object -----

  lemma ObjectBounds(s: Space, a: nat)
    requires s.Valid() && a in s.objs
    ensures a < |s.mem| && 0 < s.Size(a) && a + s.Size(a) < |s.mem|
    ensures forall w :: a < w < a + s.Size(a) ==> w !in s.objs
    ensures forall c :: 0 <= c < |s.chunks| ==> !(a <= s.chunks[c].end - 1 < a + s.Size(a))
  {
    assert s.InSomeChunk(a);
    var c :| 0 <= c < |s.chunks| && s.chunks[c].start <= a < s.chunks[c].UsableEnd();
    assert s.Tiled(s.chunks[c]);
    assert s.ObjectOk(s.chunks[c], a);
    forall d | 0 <= d < |s.chunks|
      ensures !(a <= s.chunks[d].end - 1 < a + s.Size(a))
    {
      assert d < c ==> s.chunks[d].end <= s.chunks[c].start;
      assert c < d ==> s.chunks[c].end <= s.chunks[d].start;
      assert s.chunks[d].start < s.chunks[d].end;
    }
  }

  lemma ObjectsApart(s: Space, a: nat, b: nat)
    requires s.Valid() && a in s.objs && b in s.objs && a != b
    ensures a < |s.mem| && b < |s.mem| && (a + s.Size(a) <= b || b + s.Size(b) <= a)
  {
    hide Space.Valid;
    ObjectBounds(s, a);
    ObjectBounds(s, b);
  }

  ghost predicate SameMarks(marks: seq<bv32>, marks': seq<bv32>, lo: nat, hi: nat) {
    forall w :: lo <= w < hi ==> (Marked(marks', w) <==> Marked(marks, w))
  }

  /** New marks inside one object leave the marks of the others, and of sentinels, as they are. */
  lemma OtherObjects(s: Space, marks: seq<bv32>, marks': seq<bv32>, t: nat, hi: nat, a: nat)
    requires s.Valid() && t in s.objs && t < |s.mem| && hi <= t + s.Size(t) && MarkedRange(marks, marks', t, hi)
    requires a in s.objs && a != t
    ensures a < |s.mem| && SameMarks(marks, marks', a, a + s.Size(a))
  {
    hide Marked, Space.Valid;
    ObjectsApart(s, a, t);
  }

  lemma SameColour(s: Space, marks: seq<bv32>, marks': seq<bv32>, a: nat)
    requires a < |s.mem| && 0 < s.Size(a) && SameMarks(marks, marks', a, a + s.Size(a))
    ensures White(s, marks', a) <==> White(s, marks, a)
    ensures Grey(s, marks', a) <==> Grey(s, marks, a)
    ensures Black(s, marks', a) <==> Black(s, marks, a)
    ensures Marked(marks', a) <==> Marked(marks, a)
  {
    hide Marked;
  }

  /** Colours stay defined when the first word, or all words, of one object are marked. */
  lemma ColoursStay(s: Space, marks: seq<bv32>, marks': seq<bv32>, t: nat, hi: nat)
    requires s.Valid() && ColoursOk(s, marks) && t in s.objs && t < |s.mem| && 2 <= s.Size(t)
    requires MarkedRange(marks, marks', t, hi)
    requires (hi == t + 1 && White(s, marks, t)) || hi == t + s.Size(t)
    ensures ColoursOk(s, marks')
    ensures hi == t + 1 ==> Grey(s, marks', t)
    ensures hi == t + s.Size(t) ==> Black(s, marks', t)
  {
    hide Marked, Space.Valid;
    ObjectBounds(s, t);
    OwnWords(s, marks, marks', t, hi);
    forall a | a in s.objs
      ensures Coloured(s, marks', a)
    {
      assert Coloured(s, marks, a);
      if a != t {
        OtherObjects(s, marks, marks', t, hi, a);
        ObjectBounds(s, a);
        SameColour(s, marks, marks', a);
      }
    }
  }

  lemma OwnWords(s: Space, marks: seq<bv32>, marks': seq<bv32>, t: nat, hi: nat)
    requires |s.mem| <= 32 * |marks| && t < |s.mem| && t + s.Size(t) <= |s.mem| && 2 <= s.Size(t)
    requires MarkedRange(marks, marks', t, hi)
    requires (hi == t + 1 && White(s, marks, t)) || hi == t + s.Size(t)
    ensures hi == t + 1 ==> Grey(s, marks', t)
    ensures hi == t + s.Size(t) ==> Black(s, marks', t)
  {
    hide Marked;
    forall w | t <= w < t + s.Size(t)
      ensures w / 32 < |marks|
    {
    }
  }

  // ----- an object turns grey -----

  /** Whatever waited still waits. */
  ghost predicate KeepsWaiting(q: Queue, q': Queue, todo: set<nat>, scan: Scan) {
    forall a {:trigger Waiting(q', todo, scan, a)} :: Waiting(q, todo, scan, a) ==> Waiting(q', todo, scan, a)
  }

  ghost predicate TurnsGrey(s: Space, marks: seq<bv32>, marks': seq<bv32>, t: nat) {
    t in s.objs && t < |s.mem| && 2 <= s.Size(t) && !Marked(marks, t) && MarkedRange(marks, marks', t, t + 1)
  }

  lemma WasWhite(s: Space, marks: seq<bv32>, t: nat)
    requires ColoursOk(s, marks) && t in s.objs && t < |s.mem| && 0 < s.Size(t) && !Marked(marks, t)
    ensures White(s, marks, t)
  {
    hide Marked;
    assert Coloured(s, marks, t);
  }

  /** Only t gains a mark among first words, and no second word does. */
  lemma GreyFirstWords(s: Space, marks: seq<bv32>, marks': seq<bv32>, t: nat, a: nat)
    requires s.Valid() && ColoursOk(s, marks) && TurnsGrey(s, marks, marks', t) && a in s.objs && a < |s.mem|
    ensures Marked(marks', a) <==> Marked(marks, a) || a == t
    ensures 2 <= s.Size(a) ==> (Marked(marks', a + 1) <==> Marked(marks, a + 1))
    ensures a != t ==> (Grey(s, marks', a) <==> Grey(s, marks, a))
  {
    hide Marked, Space.Valid, ColoursOk;
    ObjectBounds(s, a);
    ObjectBounds(s, t);
    MarkCovers(s, marks, t);
    if a != t {
      OtherObjects(s, marks, marks', t, t + 1, a);
      SameColour(s, marks, marks', a);
    }
  }

  lemma MarkCovers(s: Space, marks: seq<bv32>, t: nat)
    requires ColoursOk(s, marks) && t < |s.mem|
    ensures t / 32 < |marks|
  {
  }

  lemma GreyKeeps(s: Space, roots: set<nat>, marks: seq<bv32>, marks': seq<bv32>, q: Queue, q': Queue, todo: set<nat>,
                  scan: Scan, x: nat, k: nat, t: nat)
    requires Tracing(s, roots, marks, q, todo, scan, x, k) && TurnsGrey(s, marks, marks', t) && Reachable(s, roots, t)
    requires KeepsWaiting(q, q', todo, scan) && Waiting(q', todo, scan, t) && StackOk(s, marks', q') && CardsOk(s, q')
    requires FlagsPending(q', todo)
    ensures Tracing(s, roots, marks', q', todo, scan, x, k)
  {
    hide Marked, Space.Valid, StackOk, CardsOk, Waiting, Reachable, ColoursOk;
    WasWhite(s, marks, t) by { ObjectBounds(s, t); }
    ColoursStay(s, marks, marks', t, t + 1);
    forall a | a in s.objs && a < |s.mem| && Grey(s, marks', a)
      ensures Waiting(q', todo, scan, a)
    {
      GreyFirstWords(s, marks, marks', t, a);
      if a != t { assert Waiting(q, todo, scan, a); }
    }
    forall a: nat, j: nat, u: nat | PointsTo(s, a, j, u) && Marked(marks', a + 1) && !(a == x && k <= j)
      ensures Marked(marks', u)
    {
      GreyFirstWords(s, marks, marks', t, a);
    }
    forall a | a in s.objs && Marked(marks', a)
      ensures Reachable(s, roots, a)
    {
      ObjectBounds(s, a);
      GreyFirstWords(s, marks, marks', t, a);
    }
  }

  lemma PushKeeps(s: Space, roots: set<nat>, marks: seq<bv32>, marks': seq<bv32>, q: Queue, todo: set<nat>, scan: Scan,
                  x: nat, k: nat, t: nat)
    requires Tracing(s, roots, marks, q, todo, scan, x, k) && TurnsGrey(s, marks, marks', t) && Reachable(s, roots, t)
    requires |q.stack| < 128
    ensures Tracing(s, roots, marks', q.(stack := q.stack + [t]), todo, scan, x, k)
  {
    hide Marked, Space.Valid, Reachable, ColoursOk, GreysWait, Scanned, MarkedAreReachable;
    var q' := q.(stack := q.stack + [t]);
    MarkedAt(s, marks, marks', t);
    assert StackOk(s, marks', q');
    GreyKeeps(s, roots, marks, marks', q, q', todo, scan, x, k, t);
  }

  lemma MarkedAt(s: Space, marks: seq<bv32>, marks': seq<bv32>, t: nat)
    requires ColoursOk(s, marks) && TurnsGrey(s, marks, marks', t)
    ensures Marked(marks', t) && forall a :: Marked(marks, a) ==> Marked(marks', a)
  {
    hide Marked;
    MarkCovers(s, marks, t);
  }

  /** The start recorded for a card when an object of the card could not be pushed. */
  function LowerStart(start: int, offset: nat): int {
    if start == NO_START || start > offset then offset else start
  }

  function Overflow(q: Queue, t: nat): Queue
    requires t / 32 < |q.flags| && t / 32 < |q.starts|
  {
    q.(overflowed := true, flags := q.flags[t / 32 := true],
        starts := q.starts[t / 32 := LowerStart(q.starts[t / 32], t % 32)])
  }

  lemma OverflowKeeps(s: Space, roots: set<nat>, marks: seq<bv32>, marks': seq<bv32>, q: Queue, todo: set<nat>,
                      scan: Scan, x: nat, k: nat, t: nat)
    requires Tracing(s, roots, marks, q, todo, scan, x, k) && TurnsGrey(s, marks, marks', t) && Reachable(s, roots, t)
    ensures t / 32 < |q.flags| && t / 32 < |q.starts|
    ensures Tracing(s, roots, marks', Overflow(q, t), todo, scan, x, k)
  {
    hide Marked, Space.Valid, Reachable, ColoursOk, GreysWait, Scanned, MarkedAreReachable;
    MarkedAt(s, marks, marks', t);
    OverflowCards(s, q, t);
    OverflowWaits(s, q, todo, scan, t);
    assert StackOk(s, marks', Overflow(q, t));
    GreyKeeps(s, roots, marks, marks', q, Overflow(q, t), todo, scan, x, k, t);
  }

  lemma OverflowCards(s: Space, q: Queue, t: nat)
    requires s.Valid() && CardsOk(s, q) && t in s.objs && t < |s.mem|
    ensures t / 32 < |q.flags| && CardsOk(s, Overflow(q, t))
  {
    hide Space.Valid;
    assert s.ChunkCard(t / 32) by { var c := CardOfObject(s, t); }
    assert 32 * (t / 32) + t % 32 == t;
  }

  /** Recording an overflow never moves a start past an object that waits in the card. */
  lemma OverflowWaits(s: Space, q: Queue, todo: set<nat>, scan: Scan, t: nat)
    requires CardsOk(s, q) && t < |s.mem|
    ensures t / 32 < |q.flags| && KeepsWaiting(q, Overflow(q, t), todo, scan) && Waiting(Overflow(q, t), todo, scan, t)
  {
    var q' := Overflow(q, t);
    forall a | Waiting(q, todo, scan, a)
      ensures Waiting(q', todo, scan, a)
    {
    }
  }

  // ----- an object turns black and its words are visited -----

  ghost predicate TurnsBlack(s: Space, marks: seq<bv32>, marks': seq<bv32>, x: nat) {
    x in s.objs && x < |s.mem| && 2 <= s.Size(x) && Marked(marks, x) && MarkedRange(marks, marks', x, x + s.Size(x))
  }

  lemma BlackFirstWords(s: Space, marks: seq<bv32>, marks': seq<bv32>, x: nat, a: nat)
    requires s.Valid() && ColoursOk(s, marks) && TurnsBlack(s, marks, marks', x) && a in s.objs && a < |s.mem|
    ensures Marked(marks', a) <==> Marked(marks, a)
    ensures a != x && 2 <= s.Size(a) ==> (Marked(marks', a + 1) <==> Marked(marks, a + 1))
    ensures a != x ==> (Grey(s, marks', a) <==> Grey(s, marks, a))
    ensures !Grey(s, marks', x)
  {
    hide Marked, Space.Valid;
    ObjectBounds(s, a);
    ObjectBounds(s, x);
    ColoursStay(s, marks, marks', x, x + s.Size(x));
    assert Marked(marks', x + 1);
    if a != x {
      OtherObjects(s, marks, marks', x, x + s.Size(x), a);
      SameColour(s, marks, marks', a);
    }
  }

  /** Everything that waited, except x itself, still waits. */
  ghost predicate OthersKeepWaiting(s: Space, q: Queue, todo: set<nat>, scan: Scan, q': Queue, todo': set<nat>,
                                    scan': Scan, x: nat)
  {
    forall a {:trigger Waiting(q', todo', scan', a)} :: a in s.objs && a != x && Waiting(q, todo, scan, a) ==>
        Waiting(q', todo', scan', a)
  }

  /** From now on the words of x have to be visited. */
  lemma BlackKeeps(s: Space, roots: set<nat>, marks: seq<bv32>, marks': seq<bv32>, q: Queue, todo: set<nat>, scan: Scan,
                   q': Queue, todo': set<nat>, scan': Scan, y: nat, x: nat)
    requires Tracing(s, roots, marks, q, todo, scan, y, |s.mem|) && TurnsBlack(s, marks, marks', x)
    requires OthersKeepWaiting(s, q, todo, scan, q', todo', scan', x) && StackOk(s, marks, q') && CardsOk(s, q')
    requires FlagsPending(q', todo')
    ensures Tracing(s, roots, marks', q', todo', scan', x, x + 1)
  {
    hide Marked, Space.Valid, CardsOk, Waiting, Reachable, ColoursOk;
    ColoursStay(s, marks, marks', x, x + s.Size(x));
    forall a | a in s.objs && a < |s.mem| && Grey(s, marks', a)
      ensures Waiting(q', todo', scan', a)
    {
      BlackFirstWords(s, marks, marks', x, a);
      assert Waiting(q, todo, scan, a);
    }
    forall a: nat, j: nat, u: nat | PointsTo(s, a, j, u) && Marked(marks', a + 1) && !(a == x && x + 1 <= j)
      ensures Marked(marks', u)
    {
      BlackFirstWords(s, marks, marks', x, a);
    }
    forall a | a in s.objs && Marked(marks', a)
      ensures Reachable(s, roots, a)
    {
      ObjectBounds(s, a);
      BlackFirstWords(s, marks, marks', x, a);
    }
  }

  lemma PopKeeps(s: Space, roots: set<nat>, marks: seq<bv32>, marks': seq<bv32>, q: Queue, todo: set<nat>, scan: Scan,
                 y: nat, x: nat)
    requires Tracing(s, roots, marks, q, todo, scan, y, |s.mem|) && TurnsBlack(s, marks, marks', x)
    requires q.stack != [] && x == q.stack[|q.stack| - 1]
    ensures Tracing(s, roots, marks', q.(stack := q.stack[..|q.stack| - 1]), todo, scan, x, x + 1)
  {
    hide Marked, Space.Valid, Reachable, ColoursOk, GreysWait, Scanned, MarkedAreReachable;
    var q' := q.(stack := q.stack[..|q.stack| - 1]);
    assert forall a :: a in q.stack && a != x ==> a in q'.stack;
    BlackKeeps(s, roots, marks, marks', q, todo, scan, q', todo, scan, y, x);
  }

  lemma WordVisited(s: Space, roots: set<nat>, marks: seq<bv32>, q: Queue, todo: set<nat>, scan: Scan, x: nat, k: nat)
    requires Tracing(s, roots, marks, q, todo, scan, x, k)
    requires forall t: nat {:trigger PointsTo(s, x, k, t)} :: PointsTo(s, x, k, t) ==> Marked(marks, t)
    ensures Tracing(s, roots, marks, q, todo, scan, x, k + 1)
  {
    hide Marked, Space.Valid, StackOk, CardsOk, GreysWait, MarkedAreReachable, ColoursOk;
  }

  lemma ObjectVisited(s: Space, roots: set<nat>, marks: seq<bv32>, q: Queue, todo: set<nat>, scan: Scan, x: nat, k: nat,
                      y: nat)
    requires Tracing(s, roots, marks, q, todo, scan, x, k) && x < |s.mem| && x + s.Size(x) <= k
    ensures Tracing(s, roots, marks, q, todo, scan, y, |s.mem|)
  {
    hide Marked, Space.Valid, StackOk, CardsOk, GreysWait, MarkedAreReachable, ColoursOk;
  }

  // ----- searching flagged cards -----

  /** Give up the overflow flag: from now on the flagged cards are those still to be searched. */
  lemma SweepStarts(s: Space, roots: set<nat>, marks: seq<bv32>, q: Queue, todo: set<nat>, y: nat)
    requires Tracing(s, roots, marks, q, {}, NoScan, y, |s.mem|) && forall l: nat :: l < |q.flags| ==> l in todo
    ensures Tracing(s, roots, marks, q.(overflowed := false), todo, NoScan, y, |s.mem|)
  {
    hide Marked, Space.Valid, Scanned, MarkedAreReachable, ColoursOk;
    var q' := q.(overflowed := false);
    forall a | a in s.objs && a < |s.mem| && Grey(s, marks, a)
      ensures Waiting(q', todo, NoScan, a)
    {
      assert Waiting(q, {}, NoScan, a);
    }
  }

  lemma ClearCard(s: Space, roots: set<nat>, marks: seq<bv32>, q: Queue, todo: set<nat>, l: nat, y: nat)
    requires Tracing(s, roots, marks, q, todo, NoScan, y, |s.mem|) && l < |q.flags| && q.flags[l]
    ensures l < |q.starts| && q.starts[l] != NO_START && 0 <= q.starts[l] < 32 && 32 * l + q.starts[l] in s.objs
    ensures Tracing(s, roots, marks, q.(flags := q.flags[l := false]), todo - {l}, InCard(l, 32 * l + q.starts[l]), y,
              |s.mem|)
  {
    hide Marked, Space.Valid, Scanned, MarkedAreReachable, ColoursOk;
    var q', scan := q.(flags := q.flags[l := false]), InCard(l, 32 * l + q.starts[l]);
    forall a | a in s.objs && a < |s.mem| && Grey(s, marks, a)
      ensures Waiting(q', todo - {l}, scan, a)
    {
      assert Waiting(q, todo, NoScan, a);
    }
  }

  lemma SkipCard(s: Space, roots: set<nat>, marks: seq<bv32>, q: Queue, todo: set<nat>, l: nat, y: nat)
    requires Tracing(s, roots, marks, q, todo, NoScan, y, |s.mem|) && l < |q.flags| && !q.flags[l]
    ensures Tracing(s, roots, marks, q, todo - {l}, NoScan, y, |s.mem|)
  {
    hide Marked, Space.Valid, Scanned, MarkedAreReachable, ColoursOk;
    forall a | a in s.objs && a < |s.mem| && Grey(s, marks, a)
      ensures Waiting(q, todo - {l}, NoScan, a)
    {
      assert Waiting(q, todo, NoScan, a);
    }
  }

  /** The next object of the card is not grey: go on behind it. */
  lemma PassObject(s: Space, roots: set<nat>, marks: seq<bv32>, q: Queue, todo: set<nat>, l: nat, pos: nat, y: nat)
    requires Tracing(s, roots, marks, q, todo, InCard(l, pos), y, |s.mem|) && pos in s.objs && pos < |s.mem|
    requires !Grey(s, marks, pos)
    ensures Tracing(s, roots, marks, q, todo, InCard(l, pos + s.Size(pos)), y, |s.mem|)
  {
    hide Marked, Space.Valid, Scanned, MarkedAreReachable, ColoursOk;
    ObjectBounds(s, pos);
    forall a | a in s.objs && a < |s.mem| && Grey(s, marks, a)
      ensures Waiting(q, todo, InCard(l, pos + s.Size(pos)), a)
    {
      assert Waiting(q, todo, InCard(l, pos), a);
    }
  }

  lemma ScanBlack(s: Space, roots: set<nat>, marks: seq<bv32>, marks': seq<bv32>, q: Queue, todo: set<nat>, l: nat,
                  pos: nat, y: nat)
    requires Tracing(s, roots, marks, q, todo, InCard(l, pos), y, |s.mem|) && TurnsBlack(s, marks, marks', pos)
    ensures Tracing(s, roots, marks', q, todo, InCard(l, pos + s.Size(pos)), pos, pos + 1)
  {
    hide Marked, Space.Valid, Reachable, ColoursOk, GreysWait, Scanned, MarkedAreReachable;
    ObjectBounds(s, pos);
    BlackKeeps(s, roots, marks, marks', q, todo, InCard(l, pos), q, todo, InCard(l, pos + s.Size(pos)), y, pos);
  }

  /** The end of the card, or of its chunk, has been reached. */
  lemma CardDone(s: Space, roots: set<nat>, marks: seq<bv32>, q: Queue, todo: set<nat>, l: nat, pos: nat, y: nat,
                 c: nat)
    requires Tracing(s, roots, marks, q, todo, InCard(l, pos), y, |s.mem|)
    requires c < |s.chunks| && s.chunks[c].start <= 32 * l && 32 * l + 32 <= s.chunks[c].end
    requires 32 * l + 32 <= pos || pos == s.chunks[c].end - 1
    ensures Tracing(s, roots, marks, q, todo, NoScan, y, |s.mem|)
  {
    hide Marked, Space.Valid, Scanned, MarkedAreReachable, ColoursOk, InFlaggedCard;
    SentinelIsNoObject(s, c);
    forall a | a in s.objs && a < |s.mem| && Grey(s, marks, a)
      ensures Waiting(q, todo, NoScan, a)
    {
      assert Waiting(q, todo, InCard(l, pos), a);
      CardRange(a, l);
    }
  }

  lemma CardRange(a: nat, l: nat)
    ensures a / 32 == l <==> 32 * l <= a < 32 * l + 32
  {
  }

  lemma SentinelIsNoObject(s: Space, c: nat)
    requires s.Valid() && c < |s.chunks|
    ensures 0 < s.chunks[c].end && s.chunks[c].end - 1 !in s.objs
  {
    assert s.Tiled(s.chunks[c]);
  }

  lemma CardOfObject(s: Space, a: nat) returns (c: nat)
    requires s.Valid() && a in s.objs
    ensures c < |s.chunks| && s.chunks[c].start / 32 <= a / 32 < s.chunks[c].end / 32
  {
    assert s.InSomeChunk(a);
    c :| 0 <= c < |s.chunks| && s.chunks[c].start <= a < s.chunks[c].UsableEnd();
    assert s.chunks[c].end % 32 == 0;
    assert a < s.chunks[c].end;
  }

  lemma SweepEnds(s: Space, roots: set<nat>, marks: seq<bv32>, q: Queue, todo: set<nat>, y: nat)
    requires Tracing(s, roots, marks, q, todo, NoScan, y, |s.mem|)
    requires forall c, l :: 0 <= c < |s.chunks| && s.chunks[c].start / 32 <= l < s.chunks[c].end / 32 ==> l !in todo
    ensures Tracing(s, roots, marks, q, {}, NoScan, y, |s.mem|)
  {
    hide Marked, Space.Valid, Scanned, MarkedAreReachable, ColoursOk;
    forall a | a in s.objs && a < |s.mem| && Grey(s, marks, a)
      ensures Waiting(q, {}, NoScan, a)
    {
      assert Waiting(q, todo, NoScan, a);
      var c := CardOfObject(s, a);
    }
  }

  // ----- the end of marking -----

  /** Nothing waits: what is marked is what can be reached, and all of it is black. */
  lemma {:induction false} PathsAreMarked(s: Space, roots: set<nat>, marks: seq<bv32>, q: Queue, y: nat, p: seq<nat>,
                                          n: nat)
    requires Tracing(s, roots, marks, q, {}, NoScan, y, |s.mem|) && q.stack == [] && !q.overflowed
    requires forall r :: r in roots && r in s.objs ==> Marked(marks, r) && r < |s.mem| && 2 <= s.Size(r)
    requires Path(s, roots, p) && n < |p|
    ensures p[n] in s.objs && p[n] < |s.mem| && Black(s, marks, p[n])
  {
    hide Marked, Space.Valid, Reachable;
    if n > 0 {
      PathsAreMarked(s, roots, marks, q, y, p, n - 1);
      var i := n - 1;
      assert Refers(s, p[i], p[i + 1]);
      var k :| PointsTo(s, p[n - 1], k, p[n]);
      assert Marked(marks, p[n - 1]) && Marked(marks, p[n - 1] + 1);
      ReachNext(s, roots, p[n - 1], k, p[n]);
    }
    MarkedIsBlack(s, roots, marks, q, y, p[n]);
  }

  lemma MarkedIsBlack(s: Space, roots: set<nat>, marks: seq<bv32>, q: Queue, y: nat, a: nat)
    requires Tracing(s, roots, marks, q, {}, NoScan, y, |s.mem|) && q.stack == [] && !q.overflowed
    requires a in s.objs && a < |s.mem| && 2 <= s.Size(a) && Marked(marks, a)
    ensures Black(s, marks, a)
  {
    hide Marked, Space.Valid, MarkedAreReachable, Scanned;
    assert Coloured(s, marks, a);
    assert !Waiting(q, {}, NoScan, a);
  }

  /** With no overflow pending and no card to be searched, no card is flagged. */
  lemma NoFlagLeft(s: Space, roots: set<nat>, marks: seq<bv32>, q: Queue, y: nat)
    requires Tracing(s, roots, marks, q, {}, NoScan, y, |s.mem|) && !q.overflowed
    ensures |q.flags| == |q.starts| && |s.mem| <= 32 * |q.starts| && forall l :: 0 <= l < |q.flags| ==> !q.flags[l]
  {
    hide Marked, Space.Valid, Scanned, MarkedAreReachable, ColoursOk, GreysWait;
  }

  ghost predicate RootsMarked(s: Space, roots: set<nat>, marks: seq<bv32>) {
    forall r :: r in roots && r in s.objs ==> r < |s.mem| && 2 <= s.Size(r) && Marked(marks, r)
  }

  lemma MarkedIffReachable(s: Space, roots: set<nat>, marks: seq<bv32>, q: Queue, y: nat, a: nat)
    requires Tracing(s, roots, marks, q, {}, NoScan, y, |s.mem|) && q.stack == [] && !q.overflowed
    requires RootsMarked(s, roots, marks) && a in s.objs
    ensures a < |s.mem| && (Marked(marks, a) <==> Reachable(s, roots, a))
    ensures Reachable(s, roots, a) ==> Black(s, marks, a)
    ensures !Reachable(s, roots, a) ==> White(s, marks, a)
  {
    hide Marked, Space.Valid;
    ObjectBounds(s, a);
    if Reachable(s, roots, a) {
      var p :| Path(s, roots, p) && p[|p| - 1] == a;
      PathsAreMarked(s, roots, marks, q, y, p, |p| - 1);
    } else {
      WasWhite(s, marks, a);
    }
  }

  /** The bitmap is what the compaction planner starts from, with the reachable objects as the live ones. */
  lemma MarkedIsPrepared(s: Space, roots: set<nat>, marks: seq<bv32>, table: seq<int>, q: Queue, y: nat)
    requires Tracing(s, roots, marks, q, {}, NoScan, y, |s.mem|) && q.stack == [] && !q.overflowed
    requires RootsMarked(s, roots, marks)
    requires |table| == |marks| == |q.starts| && s.live == set a | a in s.objs && Reachable(s, roots, a)
    ensures Prepared(s, marks, table, q.starts, 0)
  {
    hide Marked, Space.Valid, Reachable, GreysWait, Scanned, MarkedAreReachable, White, Black, MarksAgree, BlackFrom,
         StartsOk;
    ValidChunks(s);
    forall d | 0 <= d < |s.chunks|
      ensures MarksAgree(s, marks, s.chunks[d]) && BlackFrom(s, marks, s.chunks[d], s.chunks[d].start)
      ensures StartsOk(s, q.starts, s.chunks[d])
    {
      ChunkMarks(s, roots, marks, q, y, d);
      ChunkStarts(s, q, d);
    }
  }

  lemma ValidChunks(s: Space)
    requires s.Valid()
    ensures s.ChunksOk()
  {
  }

  lemma LiveBlackDeadWhite(s: Space, roots: set<nat>, marks: seq<bv32>, q: Queue, y: nat, a: nat)
    requires Tracing(s, roots, marks, q, {}, NoScan, y, |s.mem|) && q.stack == [] && !q.overflowed
    requires RootsMarked(s, roots, marks)
    requires s.live == (set a | a in s.objs && Reachable(s, roots, a)) && a in s.objs
    ensures a < |s.mem| && ObjectMarks(s, marks, a) && (a in s.live ==> AllMarked(marks, a, a + s.Size(a)))
  {
    hide Marked, Space.Valid, Reachable, GreysWait, Scanned, MarkedAreReachable, ColoursOk;
    MarkedIffReachable(s, roots, marks, q, y, a);
  }

  lemma ChunkMarks(s: Space, roots: set<nat>, marks: seq<bv32>, q: Queue, y: nat, d: nat)
    requires Tracing(s, roots, marks, q, {}, NoScan, y, |s.mem|) && q.stack == [] && !q.overflowed
    requires RootsMarked(s, roots, marks)
    requires s.live == (set a | a in s.objs && Reachable(s, roots, a)) && d < |s.chunks| && s.ChunksOk()
    ensures MarksAgree(s, marks, s.chunks[d]) && BlackFrom(s, marks, s.chunks[d], s.chunks[d].start)
  {
    hide Marked, Space.Valid, Reachable, GreysWait, Scanned, MarkedAreReachable, ObjectMarks, AllMarked;
    var ch := s.chunks[d];
    FirstBoundary(s, d);
    assert s.live <= s.objs;
    forall a | a in s.objs
      ensures a < |s.mem| && ObjectMarks(s, marks, a) && (a in s.live ==> AllMarked(marks, a, a + s.Size(a)))
    {
      LiveBlackDeadWhite(s, roots, marks, q, y, a);
    }
  }

  lemma FirstBoundary(s: Space, d: nat)
    requires s.Valid() && d < |s.chunks|
    ensures s.chunks[d].start < s.chunks[d].end <= |s.mem|
    ensures s.NextBoundary(s.chunks[d], s.chunks[d].start) == s.chunks[d].start
  {
    assert s.Tiled(s.chunks[d]);
  }

  lemma ChunkStarts(s: Space, q: Queue, d: nat)
    requires CardsOk(s, q) && d < |s.chunks| && s.ChunksOk()
    ensures StartsOk(s, q.starts, s.chunks[d])
  {
  }
}
