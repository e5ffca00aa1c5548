/** Compaction renames addresses and changes nothing else: the object graph before and after is the same. */
module Survivors {
  import opened GcHeap
  import opened Plan
  import opened PlanTheorems
  import opened Compaction
  import opened CompactedSpace
  import opened Marker
  import opened Marking

  // ----- a space and its renamed copy -----

  ghost function Redirected(addr: map<nat, nat>, w: Word): Word {
    if w.Pointer? && w.target in addr then Pointer(addr[w.target]) else w
  }

  /** Word k of object a has been copied; a pointer that was not redirected names no object of the copy. */
  ghost predicate WordMoved(s: Space, n: Space, addr: map<nat, nat>, a: nat, k: nat)
    requires a in addr && a <= k < |s.mem| && addr[a] + (k - a) < |n.mem|
  {
    && n.mem[addr[a] + (k - a)] == Redirected(addr, s.mem[k])
    && (s.mem[k].Pointer? && s.mem[k].target !in addr ==> s.mem[k].target !in n.objs)
  }

  ghost predicate ObjectMoved(s: Space, n: Space, addr: map<nat, nat>, a: nat)
    requires a in addr
  {
    && a in s.objs && a < |s.mem| && a + s.Size(a) <= |s.mem|
    && addr[a] in n.objs && addr[a] < |n.mem| && addr[a] + s.Size(a) <= |n.mem| && n.Size(addr[a]) == s.Size(a)
    && (forall k {:trigger WordMoved(s, n, addr, a, k)} :: a < k < a + s.Size(a) ==> WordMoved(s, n, addr, a, k))
  }

  /** Each live object has a new address of its own, and there a copy with redirected pointers. */
  ghost predicate Relocated(s: Space, n: Space, addr: map<nat, nat>) {
    && addr.Keys == s.live && n.live == addr.Values
    && (forall a, b :: a in addr && b in addr && addr[a] == addr[b] ==> a == b)
    && (forall a {:trigger ObjectMoved(s, n, addr, a)} :: a in addr ==> ObjectMoved(s, n, addr, a))
  }

  lemma EdgeKept(s: Space, n: Space, addr: map<nat, nat>, a: nat, k: nat, t: nat)
    requires Relocated(s, n, addr) && a in addr && t in addr && PointsTo(s, a, k, t)
    ensures PointsTo(n, addr[a], addr[a] + (k - a), addr[t])
  {
    assert ObjectMoved(s, n, addr, a) && ObjectMoved(s, n, addr, t);
    assert WordMoved(s, n, addr, a, k);
  }

  /** Every edge of the copy comes from an edge of the original. */
  lemma EdgeBack(s: Space, n: Space, addr: map<nat, nat>, a: nat, k: nat, y: nat) returns (t: nat)
    requires Relocated(s, n, addr) && a in addr && PointsTo(n, addr[a], k, y)
    ensures t in addr && addr[t] == y && PointsTo(s, a, a + (k - addr[a]), t)
  {
    assert ObjectMoved(s, n, addr, a);
    var j := a + (k - addr[a]);
    assert WordMoved(s, n, addr, a, j);
    t := s.mem[j].target;
    assert ObjectMoved(s, n, addr, t);
  }

  // ----- reachability in the copy -----

  ghost function MovedRoots(addr: map<nat, nat>, roots: set<nat>): set<nat> {
    set r | r in roots && r in addr :: addr[r]
  }

  ghost predicate LiveIsReachable(s: Space, roots: set<nat>) {
    forall a :: a in s.live <==> a in s.objs && Reachable(s, roots, a)
  }

  lemma {:induction false} PathForward(s: Space, n: Space, addr: map<nat, nat>, roots: set<nat>, p: seq<nat>, i: nat)
    requires Relocated(s, n, addr) && LiveIsReachable(s, roots) && Path(s, roots, p) && i < |p|
    ensures p[i] in addr && Reachable(n, MovedRoots(addr, roots), addr[p[i]])
  {
    hide Reachable, Relocated;
    if i == 0 {
      ReachRoot(s, roots, p[0]);
      MovedRoot(s, n, addr, roots, p[0]);
    } else {
      var j := i - 1;
      PathForward(s, n, addr, roots, p, j);
      assert Refers(s, p[j], p[j + 1]);
      var k :| PointsTo(s, p[j], k, p[i]);
      StillReachable(s, n, addr, roots, p[j], k, p[i]);
      EdgeKept(s, n, addr, p[j], k, p[i]);
      ReachNext(n, MovedRoots(addr, roots), addr[p[j]], addr[p[j]] + (k - p[j]), addr[p[i]]);
    }
  }

  lemma MovedRoot(s: Space, n: Space, addr: map<nat, nat>, roots: set<nat>, r: nat)
    requires Relocated(s, n, addr) && LiveIsReachable(s, roots) && r in roots && r in s.objs && Reachable(s, roots, r)
    ensures r in addr && Reachable(n, MovedRoots(addr, roots), addr[r])
  {
    hide Reachable;
    assert r in s.live;
    assert ObjectMoved(s, n, addr, r);
    ReachRoot(n, MovedRoots(addr, roots), addr[r]);
  }

  lemma StillReachable(s: Space, n: Space, addr: map<nat, nat>, roots: set<nat>, a: nat, k: nat, t: nat)
    requires Relocated(s, n, addr) && LiveIsReachable(s, roots) && a in addr && PointsTo(s, a, k, t)
    ensures t in addr
  {
    hide Reachable;
    assert a in s.live;
    ReachNext(s, roots, a, k, t);
  }

  lemma {:induction false} PathBack(s: Space, n: Space, addr: map<nat, nat>, roots: set<nat>, q: seq<nat>, i: nat)
      returns (a: nat)
    requires Relocated(s, n, addr) && LiveIsReachable(s, roots) && Path(n, MovedRoots(addr, roots), q) && i < |q|
    ensures a in addr && addr[a] == q[i]
  {
    if i == 0 {
      a :| a in roots && a in addr && addr[a] == q[0];
    } else {
      var j := i - 1;
      var b := PathBack(s, n, addr, roots, q, j);
      assert Refers(n, q[j], q[j + 1]);
      var k :| PointsTo(n, q[j], k, q[i]);
      a := EdgeBack(s, n, addr, b, k, q[i]);
    }
  }

  /**
   The objects of the copy that its roots reach are exactly the copies of the objects that the roots reached before.
   */
  lemma SameReachable(s: Space, n: Space, addr: map<nat, nat>, roots: set<nat>, y: nat)
    requires Relocated(s, n, addr) && LiveIsReachable(s, roots)
    ensures Reachable(n, MovedRoots(addr, roots), y) <==> y in n.live
  {
    if y in n.live {
      var a :| a in addr && addr[a] == y;
      var p :| Path(s, roots, p) && p[|p| - 1] == a;
      PathForward(s, n, addr, roots, p, |p| - 1);
    }
    if Reachable(n, MovedRoots(addr, roots), y) {
      var q :| Path(n, MovedRoots(addr, roots), q) && q[|q| - 1] == y;
      var a := PathBack(s, n, addr, roots, q, |q| - 1);
    }
  }

  // ----- the copy that compaction makes -----

  /** Pointers from live objects into the space name objects. */
  ghost predicate WellPointed(s: Space) {
    forall a: nat, k: nat {:trigger WordOf(s, a, k)} ::
      a in s.live && WordOf(s, a, k) && s.mem[k].Pointer? && InOldSpace(s, s.mem[k].target) ==>
          s.mem[k].target in s.objs
  }

  ghost predicate WordOf(s: Space, a: nat, k: nat) {
    a in s.objs && a < |s.mem| && a < k < a + s.Size(a) && k < |s.mem|
  }

  ghost function NewAddresses(s: Space, marks: seq<bv32>, table: seq<int>): map<nat, nat> {
    map a | a in s.live :: if a in s.live then NewAddress(marks, table, a) else 0
  }

  /** The plan has been carried out in memory. */
  ghost predicate CarriedOut(s: Space, marks: seq<bv32>, table: seq<int>, tops: seq<int>, cut: seq<nat>, mem: seq<Word>)
  {
    && s.Valid() && FinalPlan(s, s.chunks, marks, table, tops, cut) && NewSpace(s, marks, table, tops, mem).Valid()
    && (forall a {:trigger Copied(s, marks, table, mem, a)} :: a in s.live ==>
           a < |s.mem| && Copied(s, marks, table, mem, a))
  }

  lemma AddressesApart(s: Space, marks: seq<bv32>, table: seq<int>, tops: seq<int>, cut: seq<nat>, mem: seq<Word>,
                       a: nat, b: nat)
    requires CarriedOut(s, marks, table, tops, cut, mem) && a in s.live && b in s.live && a < b
    ensures NewAddress(marks, table, a) < NewAddress(marks, table, b)
  {
    hide Dest, FinalPlan, NewSpace;
    DestinationsInOrder(s, s.chunks, marks, table, tops, cut, a, b);
    DestinationsMoveDown(s, s.chunks, marks, table, tops, cut, a);
    ObjectBounds(s, a);
  }

  lemma ObjectInside(s: Space, n: Space, x: nat)
    requires n.Valid() && n.chunks == s.chunks && x in n.objs
    ensures InOldSpace(s, x)
  {
    assert n.InSomeChunk(x);
  }

  lemma Shape(s: Space, marks: seq<bv32>, table: seq<int>, tops: seq<int>, cut: seq<nat>, mem: seq<Word>)
    requires CarriedOut(s, marks, table, tops, cut, mem)
    ensures s.Valid() && |tops| == |s.chunks| && NewSpace(s, marks, table, tops, mem).Valid()
  {
  }

  /** What a word of a live object is after the move. */
  lemma MovedWord(s: Space, marks: seq<bv32>, table: seq<int>, tops: seq<int>, cut: seq<nat>, mem: seq<Word>, a: nat,
                  w: nat)
    requires CarriedOut(s, marks, table, tops, cut, mem) && a in s.live && a < |s.mem| && a <= w < a + s.Size(a)
    ensures a + s.Size(a) <= |s.mem| && 0 <= Dest(marks, table, a) && Dest(marks, table, a) + s.Size(a) <= |mem|
    ensures mem[Dest(marks, table, a) + (w - a)] == FixWord(s, marks, table, s.mem[w])
  {
    hide Dest, FinalPlan, FixWord, NewSpace, Space.Valid;
    assert Copied(s, marks, table, mem, a);
    assert WordCopied(s, marks, table, mem, a, w);
  }

  lemma LiveAddress(s: Space, marks: seq<bv32>, table: seq<int>, tops: seq<int>, cut: seq<nat>, mem: seq<Word>, a: nat)
    requires CarriedOut(s, marks, table, tops, cut, mem) && a in s.live
    ensures a in NewAddresses(s, marks, table) && NewAddresses(s, marks, table)[a] == Dest(marks, table, a)
  {
    hide Dest, FinalPlan, NewSpace;
    DestinationsMoveDown(s, s.chunks, marks, table, tops, cut, a);
  }

  /** A pointer of a live object is redirected if and only if it points into the space, and then to a live object. */
  lemma PointerMoved(s: Space, marks: seq<bv32>, table: seq<int>, tops: seq<int>, cut: seq<nat>, mem: seq<Word>,
                     roots: set<nat>, a: nat, k: nat)
    requires CarriedOut(s, marks, table, tops, cut, mem) && WellPointed(s) && LiveIsReachable(s, roots)
    requires a in s.live && WordOf(s, a, k) && |tops| == |s.chunks|
    ensures var addr, w := NewAddresses(s, marks, table), s.mem[k];
            && FixWord(s, marks, table, w) == Redirected(addr, w)
            && (w.Pointer? && w.target !in addr ==> w.target !in NewSpace(s, marks, table, tops, mem).objs)
  {
    hide Dest, FinalPlan, Reachable, InOldSpace, CarriedOut, NewSpace;
    Shape(s, marks, table, tops, cut, mem);
    var n := NewSpace(s, marks, table, tops, mem);
    assert n.chunks == s.chunks by { NewChunks(s, marks, table, tops, mem); }
    hide Space.Valid;
    if s.mem[k].Pointer? && 0 <= s.mem[k].target {
      var t: nat := s.mem[k].target;
      if t in n.objs { ObjectInside(s, n, t); }
      if t in s.live { TargetInside(s, t); }
      if InOldSpace(s, t) {
        assert PointsTo(s, a, k, t);
        ReachNext(s, roots, a, k, t);
        LiveAddress(s, marks, table, tops, cut, mem, t);
      }
    }
  }

  lemma TargetInside(s: Space, t: nat)
    requires s.Valid() && t in s.live
    ensures InOldSpace(s, t)
  {
    ObjectInside(s, s, t);
  }

  lemma NewChunks(s: Space, marks: seq<bv32>, table: seq<int>, tops: seq<int>, mem: seq<Word>)
    requires |tops| == |s.chunks|
    ensures var n := NewSpace(s, marks, table, tops, mem);
            n.chunks == s.chunks && n.mem == mem && n.live == NewAddresses(s, marks, table).Values && n.live <= n.objs
  {
    var addr := NewAddresses(s, marks, table);
    forall a | a in s.live
      ensures NewAddress(marks, table, a) in addr.Values
    {
      assert a in addr && addr[a] == NewAddress(marks, table, a);
    }
  }

  lemma MovedAsPlanned(s: Space, marks: seq<bv32>, table: seq<int>, tops: seq<int>, cut: seq<nat>, mem: seq<Word>,
                       roots: set<nat>, a: nat)
    requires CarriedOut(s, marks, table, tops, cut, mem) && WellPointed(s) && LiveIsReachable(s, roots) && a in s.live
    requires |tops| == |s.chunks|
    ensures ObjectMoved(s, NewSpace(s, marks, table, tops, mem), NewAddresses(s, marks, table), a)
  {
    hide Dest, FinalPlan, Reachable, InOldSpace, NewSpace, CarriedOut, WellPointed, LiveIsReachable, Redirected,
         NewAddresses;
    var n, addr := NewSpace(s, marks, table, tops, mem), NewAddresses(s, marks, table);
    Shape(s, marks, table, tops, cut, mem);
    NewChunks(s, marks, table, tops, mem);
    LiveAddress(s, marks, table, tops, cut, mem, a);
    assert a in s.objs && s.mem[a].Header? by { LiveHeader(s, a); }
    hide Space.Valid;
    ObjectBounds(s, a);
    MovedWord(s, marks, table, tops, cut, mem, a, a);
    assert addr[a] in addr.Values;
    forall k | a < k < a + s.Size(a)
      ensures WordMoved(s, n, addr, a, k)
    {
      MovedWord(s, marks, table, tops, cut, mem, a, k);
      PointerMoved(s, marks, table, tops, cut, mem, roots, a, k);
    }
  }

  lemma LiveHeader(s: Space, a: nat)
    requires s.Valid() && a in s.live
    ensures a in s.objs && a < |s.mem| && s.mem[a].Header?
  {
    var c := ChunkIndex(s, a);
  }

  lemma PlanRelocates(s: Space, marks: seq<bv32>, table: seq<int>, tops: seq<int>, cut: seq<nat>, mem: seq<Word>,
                      roots: set<nat>)
    requires CarriedOut(s, marks, table, tops, cut, mem) && WellPointed(s) && LiveIsReachable(s, roots)
    requires |tops| == |s.chunks|
    ensures Relocated(s, NewSpace(s, marks, table, tops, mem), NewAddresses(s, marks, table))
  {
    hide Dest, FinalPlan, Reachable, CarriedOut, WellPointed, LiveIsReachable, NewAddress, NewSpace, ObjectMoved;
    var n, addr := NewSpace(s, marks, table, tops, mem), NewAddresses(s, marks, table);
    NewChunks(s, marks, table, tops, mem);
    forall a | a in s.live
      ensures ObjectMoved(s, n, addr, a)
    {
      MovedAsPlanned(s, marks, table, tops, cut, mem, roots, a);
    }
    forall a, b | a in addr && b in addr && a < b
      ensures addr[a] != addr[b]
    {
      AddressesApart(s, marks, table, tops, cut, mem, a, b);
    }
  }

  // ----- the roots -----

  /** The objects that the root words name. */
  ghost function RootSet(s: Space, words: seq<Word>): set<nat> {
    set i | 0 <= i < |words| && Names(s, words[i]) :: words[i].target
  }

  ghost predicate RootsWellPointed(s: Space, words: seq<Word>) {
    forall i :: 0 <= i < |words| && words[i].Pointer? && InOldSpace(s, words[i].target) ==> words[i].target in s.objs
  }

  /** A redirected root word names the copy of what it named before, or nothing if it named nothing. */
  lemma RootMoved(s: Space, marks: seq<bv32>, table: seq<int>, tops: seq<int>, cut: seq<nat>, mem: seq<Word>,
                  words: seq<Word>, i: nat)
    requires CarriedOut(s, marks, table, tops, cut, mem) && LiveIsReachable(s, RootSet(s, words))
    requires |tops| == |s.chunks|
    requires RootsWellPointed(s, words) && i < |words|
    ensures var n, addr, w' := NewSpace(s, marks, table, tops, mem), NewAddresses(s, marks, table),
              FixWord(s, marks, table, words[i]);
            && (Names(n, w') <==> Names(s, words[i]))
            && (Names(n, w') ==> words[i].target in addr && addr[words[i].target] == w'.target)
  {
    hide Dest, FinalPlan, Reachable, InOldSpace, CarriedOut, NewSpace;
    Shape(s, marks, table, tops, cut, mem);
    var n, addr := NewSpace(s, marks, table, tops, mem), NewAddresses(s, marks, table);
    NewChunks(s, marks, table, tops, mem);
    hide Space.Valid;
    if words[i].Pointer? && 0 <= words[i].target {
      var t: nat := words[i].target;
      if t in n.objs { ObjectInside(s, n, t); }
      if t in s.objs {
        ObjectInside(s, s, t);
        assert Names(s, words[i]);
        assert t in RootSet(s, words);
        ReachRoot(s, RootSet(s, words), t);
        LiveAddress(s, marks, table, tops, cut, mem, t);
        assert addr[t] in addr.Values;
      }
    }
  }

  lemma RootsMoved(s: Space, marks: seq<bv32>, table: seq<int>, tops: seq<int>, cut: seq<nat>, mem: seq<Word>,
                   words: seq<Word>, words': seq<Word>)
    requires CarriedOut(s, marks, table, tops, cut, mem) && LiveIsReachable(s, RootSet(s, words))
    requires |tops| == |s.chunks|
    requires RootsWellPointed(s, words)
    requires |words'| == |words| && forall i :: 0 <= i < |words| ==> words'[i] == FixWord(s, marks, table, words[i])
    ensures RootSet(NewSpace(s, marks, table, tops, mem), words') ==
              MovedRoots(NewAddresses(s, marks, table), RootSet(s, words))
  {
    hide FixWord, Reachable, CarriedOut, NewSpace, LiveIsReachable, RootsWellPointed, NewAddresses;
    var n, addr, roots := NewSpace(s, marks, table, tops, mem), NewAddresses(s, marks, table), RootSet(s, words);
    forall i | 0 <= i < |words|
      ensures Names(n, words'[i]) <==> Names(s, words[i])
      ensures Names(n, words'[i]) ==> words[i].target in addr && addr[words[i].target] == words'[i].target
    {
      RootMoved(s, marks, table, tops, cut, mem, words, i);
    }
    forall y | y in MovedRoots(addr, roots)
      ensures y in RootSet(n, words')
    {
      var r :| r in roots && r in addr && addr[r] == y;
      var i :| 0 <= i < |words| && Names(s, words[i]) && words[i].target == r;
      assert Names(n, words'[i]);
    }
  }

  /** After the collection the roots reach exactly the objects that were kept. */
  lemma SurvivorsAreReachable(s: Space, marks: seq<bv32>, table: seq<int>, tops: seq<int>, cut: seq<nat>,
                              mem: seq<Word>,
                              words: seq<Word>, words': seq<Word>, y: nat)
    requires CarriedOut(s, marks, table, tops, cut, mem) && LiveIsReachable(s, RootSet(s, words))
    requires |tops| == |s.chunks|
    requires WellPointed(s) && RootsWellPointed(s, words)
    requires |words'| == |words| && forall i :: 0 <= i < |words| ==> words'[i] == FixWord(s, marks, table, words[i])
    ensures var n := NewSpace(s, marks, table, tops, mem);
            y in n.live <==> Reachable(n, RootSet(n, words'), y)
  {
    hide *;
    PlanRelocates(s, marks, table, tops, cut, mem, RootSet(s, words));
    RootsMoved(s, marks, table, tops, cut, mem, words, words');
    SameReachable(s, NewSpace(s, marks, table, tops, mem), NewAddresses(s, marks, table), RootSet(s, words), y);
  }

  // ----- the copy is fit for the next collection -----

  lemma CopyWellPointed(s: Space, marks: seq<bv32>, table: seq<int>, tops: seq<int>, cut: seq<nat>, mem: seq<Word>,
                        roots: set<nat>)
    requires CarriedOut(s, marks, table, tops, cut, mem) && WellPointed(s) && LiveIsReachable(s, roots)
    requires |tops| == |s.chunks|
    ensures WellPointed(NewSpace(s, marks, table, tops, mem))
  {
    hide CarriedOut, LiveIsReachable, NewSpace, InOldSpace, Redirected, Space.Valid, Dest;
    var n, addr := NewSpace(s, marks, table, tops, mem), NewAddresses(s, marks, table);
    NewChunks(s, marks, table, tops, mem);
    PlanRelocates(s, marks, table, tops, cut, mem, roots);
    forall y: nat, k: nat | y in n.live && WordOf(n, y, k) && n.mem[k].Pointer? && InOldSpace(n, n.mem[k].target)
      ensures n.mem[k].target in n.objs
    {
      var a :| a in addr && addr[a] == y;
      assert ObjectMoved(s, n, addr, a);
      var j := a + (k - y);
      assert WordMoved(s, n, addr, a, j) && WordOf(s, a, j);
      WordPointsInside(s, marks, table, tops, cut, mem, roots, a, j);
    }
  }

  lemma SameChunks(s: Space, n: Space, x: int)
    requires n.chunks == s.chunks
    ensures InOldSpace(n, x) <==> InOldSpace(s, x)
  {
  }

  lemma WordPointsInside(s: Space, marks: seq<bv32>, table: seq<int>, tops: seq<int>, cut: seq<nat>, mem: seq<Word>,
                         roots: set<nat>, a: nat, k: nat)
    requires CarriedOut(s, marks, table, tops, cut, mem) && WellPointed(s) && LiveIsReachable(s, roots)
    requires |tops| == |s.chunks|
    requires a in s.live && WordOf(s, a, k)
    ensures var n, w := NewSpace(s, marks, table, tops, mem), Redirected(NewAddresses(s, marks, table), s.mem[k]);
            w.Pointer? && InOldSpace(n, w.target) ==> w.target in n.objs
  {
    hide CarriedOut, LiveIsReachable, NewSpace, InOldSpace, Reachable, NewAddresses;
    var n, addr, w := NewSpace(s, marks, table, tops, mem), NewAddresses(s, marks, table), s.mem[k];
    Shape(s, marks, table, tops, cut, mem);
    NewChunks(s, marks, table, tops, mem);
    hide Space.Valid;
    if w.Pointer? {
      if w.target in addr {
        assert addr[w.target] in addr.Values;
      } else {
        SameChunks(s, n, w.target);
        if InOldSpace(s, w.target) { TargetKept(s, marks, table, roots, a, k); }
      }
    }
  }

  lemma TargetKept(s: Space, marks: seq<bv32>, table: seq<int>, roots: set<nat>, a: nat, k: nat)
    requires LiveIsReachable(s, roots) && a in s.live && WordOf(s, a, k) && s.mem[k].Pointer?
    requires s.mem[k].target in s.objs
    ensures s.mem[k].target in NewAddresses(s, marks, table)
  {
    hide Reachable;
    var t: nat := s.mem[k].target;
    assert PointsTo(s, a, k, t);
    ReachNext(s, roots, a, k, t);
  }

  lemma CopyRootsWellPointed(s: Space, marks: seq<bv32>, table: seq<int>, tops: seq<int>, cut: seq<nat>, mem: seq<Word>,
                             words: seq<Word>, words': seq<Word>)
    requires CarriedOut(s, marks, table, tops, cut, mem) && LiveIsReachable(s, RootSet(s, words))
    requires |tops| == |s.chunks|
    requires RootsWellPointed(s, words)
    requires |words'| == |words| && forall i :: 0 <= i < |words| ==> words'[i] == FixWord(s, marks, table, words[i])
    ensures RootsWellPointed(NewSpace(s, marks, table, tops, mem), words')
  {
    hide CarriedOut, LiveIsReachable, NewSpace, NewAddresses, InOldSpace, Dest, RootSet;
    var n := NewSpace(s, marks, table, tops, mem);
    NewChunks(s, marks, table, tops, mem);
    forall i | 0 <= i < |words| && words'[i].Pointer? && InOldSpace(n, words'[i].target)
      ensures words'[i].target in n.objs
    {
      RootMoved(s, marks, table, tops, cut, mem, words, i);
      SameChunks(s, n, words'[i].target);
      if InOldSpace(s, words[i].target) { RootNames(s, words, i); }
    }
  }

  lemma RootNames(s: Space, words: seq<Word>, i: nat)
    requires RootsWellPointed(s, words) && i < |words| && words[i].Pointer? && InOldSpace(s, words[i].target)
    ensures Names(s, words[i])
  {
    hide InOldSpace;
  }

  lemma CopyTraceable(s: Space, marks: seq<bv32>, table: seq<int>, tops: seq<int>, cut: seq<nat>, mem: seq<Word>,
                      words: seq<Word>, words': seq<Word>)
    requires CarriedOut(s, marks, table, tops, cut, mem) && LiveIsReachable(s, RootSet(s, words))
    requires |tops| == |s.chunks|
    requires WellPointed(s) && RootsWellPointed(s, words) && Traceable(s, RootSet(s, words))
    requires |words'| == |words| && forall i :: 0 <= i < |words| ==> words'[i] == FixWord(s, marks, table, words[i])
    ensures var n := NewSpace(s, marks, table, tops, mem);
            Traceable(n, RootSet(n, words'))
  {
    hide CarriedOut, NewSpace, NewAddresses, WellPointed, RootsWellPointed, Space.Valid, Reachable, FixWord, RootSet,
         WordMoved;
    var n, addr := NewSpace(s, marks, table, tops, mem), NewAddresses(s, marks, table);
    Shape(s, marks, table, tops, cut, mem);
    PlanRelocates(s, marks, table, tops, cut, mem, RootSet(s, words));
    forall y: nat | Reachable(n, RootSet(n, words'), y)
      ensures y < |n.mem| && 2 <= n.Size(y)
    {
      SurvivorsAreReachable(s, marks, table, tops, cut, mem, words, words', y);
      var a :| a in addr && addr[a] == y;
      assert ObjectMoved(s, n, addr, a);
      assert Reachable(s, RootSet(s, words), a);
    }
  }
}
