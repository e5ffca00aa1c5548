/** Sequences of calls to the allocator: when the heap stays tiled, and how it can stop being so. */
module HeapRuns {
  import opened Coalescing
  import opened HeapSteps
  import opened Pages
  import opened Requests
  import opened SizeClasses
  import opened Spans
  import opened Tiling
  import opened Trimming

  // ----- paths -----

  ghost function ButLast(path: seq<Step>): seq<Step>
    requires path != []
  {
    path[..|path| - 1]
  }

  ghost function Last(path: seq<Step>): Step
    requires path != []
  {
    path[|path| - 1]
  }

  /** Every step is taken under its guard, from a tiled heap. */
  ghost predicate Legal(t: Tiles, path: seq<Step>)
    decreases |path|, 0
  {
    path == [] || (Legal(t, ButLast(path)) && Enabled(After(t, ButLast(path)), Last(path)))
  }

  ghost function After(t: Tiles, path: seq<Step>): Tiles
    requires Legal(t, path)
    decreases |path|, 1
  {
    if path == [] then t else Apply(After(t, ButLast(path)), Last(path))
  }

  lemma NoSteps(t: Tiles)
    ensures Legal(t, []) && After(t, []) == t
  {
  }

  lemma OneStepMore(t: Tiles, path: seq<Step>, s: Step)
    requires Legal(t, path) && Enabled(After(t, path), s)
    ensures Legal(t, path + [s]) && After(t, path + [s]) == Apply(After(t, path), s)
  {
    hide Enabled, Apply;
    assert ButLast(path + [s]) == path;
  }

  lemma {:induction false} PathsJoin(t: Tiles, path: seq<Step>, more: seq<Step>)
    requires Legal(t, path) && Legal(After(t, path), more)
    ensures Legal(t, path + more) && After(t, path + more) == After(After(t, path), more)
    decreases |more|
  {
    hide Enabled, Apply;
    if more == [] {
      assert path + more == path;
    } else {
      PathsJoin(t, path, ButLast(more));
      assert ButLast(path + more) == path + ButLast(more);
    }
  }

  lemma {:induction false} PrefixLegal(t: Tiles, path: seq<Step>, n: nat)
    requires Legal(t, path) && n <= |path|
    ensures Legal(t, path[..n])
    decreases |path|
  {
    hide Enabled, Apply;
    if n == |path| {
      assert path[..n] == path;
    } else {
      PrefixLegal(t, ButLast(path), n);
      assert ButLast(path)[..n] == path[..n];
    }
  }

  /** A path from a tiled heap leads to a tiled heap if and only if its last step is safe. */
  lemma PathTiled(t: Tiles, path: seq<Step>)
    requires TilesOk(t) && Legal(t, path)
    ensures TilesOk(After(t, path)) <==> path == [] || Safe(After(t, ButLast(path)), Last(path))
  {
    hide TilesOk, Safe, Enabled, Apply;
    if path != [] { StepExact(After(t, ButLast(path)), Last(path)); }
  }

  // ----- widths -----

  /** Left sentinels are one header wide, or two. */
  ghost predicate Plain(t: Tiles) {
    forall i {:trigger t.spans[i]} :: i in t.spans ==> HasWidth(t, i, 8) || HasWidth(t, i, 16)
  }

  lemma StepPlain(t: Tiles, s: Step)
    requires Enabled(t, s) && Safe(t, s) && Plain(t)
    ensures Plain(Apply(t, s))
  {
    hide TilesOk, Enabled, Safe, Apply;
    forall i | i in Apply(t, s).spans
      ensures HasWidth(Apply(t, s), i, 8) || HasWidth(Apply(t, s), i, 16)
    {
      WidthAfter(t, s, i);
      if i in t.spans { assert HasWidth(t, i, 8) || HasWidth(t, i, 16); }
    }
  }

  lemma {:induction false} PathPlain(t: Tiles, path: seq<Step>)
    requires Plain(t) && Legal(t, path) && TilesOk(After(t, path))
    ensures Plain(After(t, path))
    decreases |path|
  {
    hide TilesOk, Enabled, Safe, Apply, Plain;
    if path != [] {
      var t' := After(t, ButLast(path));
      EnabledTiled(t', Last(path));
      PathPlain(t, ButLast(path));
      StepExact(t', Last(path));
      StepPlain(t', Last(path));
    }
  }

  lemma EnabledTiled(t: Tiles, s: Step)
    requires Enabled(t, s)
    ensures TilesOk(t)
  {
  }

  // ----- a pass of trimming -----

  ghost predicate IsTrim(s: Step) {
    s.TrimEnd? || s.TrimStart?
  }

  ghost predicate NothingLeft(t: Tiles) {
    forall f {:trigger Trimmable(t, f)} :: Trimmable(t, f) ==> f in t.hdr && t.hdr[f].size < 4104
  }

  /** Trim steps, until no area that is visited can be cut or until a cut has gone wrong. */
  ghost predicate TrimPass(t: Tiles, path: seq<Step>) {
    && Legal(t, path) && (forall s :: s in path ==> IsTrim(s))
    && (NothingLeft(After(t, path)) || (path != [] && !Safe(After(t, ButLast(path)), Last(path))))
  }

  lemma {:induction false} PassStaysSafe(t: Tiles, path: seq<Step>)
    requires TilesOk(t) && TrimSafe(t) && Legal(t, path) && forall s :: s in path ==> !s.Release?
    ensures TilesOk(After(t, path)) && TrimSafe(After(t, path))
    decreases |path|
  {
    hide TilesOk, Enabled, Apply, TrimSafe, Safe;
    if path != [] {
      assert forall s :: s in ButLast(path) ==> s in path;
      PassStaysSafe(t, ButLast(path));
      StaysTrimSafe(After(t, ButLast(path)), Last(path));
      StepExact(After(t, ButLast(path)), Last(path));
    }
  }

  /** A front behind a wide sentinel is still there after a visit to another area. */
  lemma WideStays(t: Tiles, s: Step, f: nat)
    requires Enabled(t, s) && IsTrim(s) && Safe(t, s) && LeftVisited(t, f) && !NarrowSentinel(t, f)
    ensures LeftVisited(Apply(t, s), f) && !NarrowSentinel(Apply(t, s), f)
  {
    hide TilesOk, PageMultiple, NewStart, NewEnd, RoundUp, TrimRight, TrimLeft, LeftVisited, NarrowSentinel;
    if s.TrimEnd? {
      WideAfterEnd(t, s.area, CutOff(t, s.area), f);
    } else {
      WideAfterStart(t, s.area, NewStart(s.area + t.hdr[s.area].size), f);
    }
  }

  lemma WideAfterEnd(t: Tiles, g: nat, freed: nat, f: nat)
    requires CanTrimRight(t, g, freed) && freed <= t.spans[t.spanOf[g]].length && LeftVisited(t, f)
    requires !NarrowSentinel(t, f)
    ensures LeftVisited(TrimRight(t, g, freed), f) && !NarrowSentinel(TrimRight(t, g, freed), f)
  {
    hide TilesOk, AreaOk, PageMultiple, Adjacent;
    FreeAreaBounds(t, f);
    Neighbourhood(t, f);
    FreeAreaBounds(t, g);
    NothingInside(t, g, f + t.hdr[f].size);
    NothingInside(t, g, t.hdr[f].left);
    NothingInside(t, g, f);
  }

  lemma WideAfterStart(t: Tiles, g: nat, start: nat, f: nat)
    requires CanTrimLeft(t, g, start) && NarrowSentinel(t, g) && LeftVisited(t, f) && !NarrowSentinel(t, f)
    ensures LeftVisited(TrimLeft(t, g, start), f) && !NarrowSentinel(TrimLeft(t, g, start), f)
  {
    hide TilesOk, AreaOk, PageMultiple;
    FreeAreaBounds(t, f);
    Neighbourhood(t, f);
    FreeAreaBounds(t, g);
    Neighbourhood(t, g);
    NothingInside(t, g, f + t.hdr[f].size);
    NothingInside(t, g, t.hdr[f].left);
    NothingInside(t, g, f);
    StartAboveFree(t, g, start);
  }

  lemma {:induction false} PassKeepsWide(t: Tiles, path: seq<Step>, f: nat)
    requires Legal(t, path) && (forall s :: s in path ==> IsTrim(s)) && TilesOk(After(t, path))
    requires LeftVisited(t, f) && !NarrowSentinel(t, f)
    ensures LeftVisited(After(t, path), f) && !NarrowSentinel(After(t, path), f)
    decreases |path|
  {
    hide TilesOk, Enabled, Apply, Safe, LeftVisited, NarrowSentinel;
    if path != [] {
      assert forall s :: s in ButLast(path) ==> s in path;
      var t' := After(t, ButLast(path));
      EnabledTiled(t', Last(path));
      PassKeepsWide(t, ButLast(path), f);
      StepExact(t', Last(path));
      WideStays(t', Last(path), f);
    }
  }

  /** A visit to a front with a payload of a page or more always cuts something off. */
  lemma VisitCuts(t: Tiles, f: nat)
    requires TilesOk(t) && Plain(t) && LeftVisited(t, f)
    ensures Trimmable(t, f) && Enabled(t, TrimStart(f))
  {
    hide TilesOk, AreaOk;
    FreeAreaBounds(t, f);
    Neighbourhood(t, f);
    var i, right := t.spanOf[f], f + t.hdr[f].size;
    assert HasWidth(t, i, 8) || HasWidth(t, i, 16);
    RoundDownUnique(f, t.spans[i].base);
    assert PageMultiple(NewStart(right)) && t.spans[i].base < NewStart(right);
  }

  /** A whole pass keeps the heap tiled if and only if no front that it cuts lies behind a wide sentinel. */
  lemma TrimExact(t: Tiles, path: seq<Step>)
    requires TilesOk(t) && Plain(t) && TrimPass(t, path)
    ensures TilesOk(After(t, path)) <==> TrimSafe(t)
  {
    hide TilesOk, Plain, Safe, Trimmable, LeftVisited, NarrowSentinel;
    if TrimSafe(t) {
      PassStaysSafe(t, path);
    } else if TilesOk(After(t, path)) {
      var f :| LeftVisited(t, f) && !NarrowSentinel(t, f);
      PassKeepsWide(t, path, f);
      PathTiled(t, path);
      PathPlain(t, path);
      VisitCuts(After(t, path), f);
      assert Trimmable(After(t, path), f);
      LargeFront(After(t, path), f);
    }
  }

  lemma LargeFront(t: Tiles, f: nat)
    requires LeftVisited(t, f)
    ensures f in t.hdr && 4104 <= t.hdr[f].size
  {
  }

  // ----- calls -----

  /** What a caller can ask for; a block is named by the address of its header. */
  datatype Call =
    | Init
    | Alloc(request: nat)
    | Free(block: nat)
    | FreeNull
    | Memalign(request: nat, alignment: nat)
    | Trim

  ghost predicate Serves(s: Step) {
    s.Grow? || s.TakeWhole? || s.Carve?
  }

  ghost predicate Takes(s: Step, a: nat) {
    (s.TakeWhole? || s.Carve?) && s.area == a
  }

  /** How a request is met: from the free areas, or after growing, or with pages of its own; or not at all. */
  ghost predicate Allocates(t: Tiles, request: nat, path: seq<Step>) {
    if path == [] then
      Bucketed(request) ==> forall x {:trigger CanServe(t, Rounded(request), x)} :: !CanServe(t, Rounded(request), x)
    else if Bucketed(request) then
      || (|path| == 1 && TakesFor(t, request, path[0]))
      || (|path| == 2 && GrowsFor(t, Rounded(request), path[0]) && Enabled(t, path[0])
          && TakesFor(Apply(t, path[0]), request, path[1]))
    else
      0 < request && |path| == 1 && path[0].Grow? && !path[0].free && path[0].length == GrowthFor(RoundUp8(request))
  }

  /** A padded block is taken, cut in two where the aligned one starts, and its first part is released again. */
  ghost predicate Aligns(t: Tiles, request: nat, alignment: nat, path: seq<Step>) {
    && 0 < alignment && 3 <= |path| && Allocates(t, PaddedSize(request, alignment), path[..|path| - 2])
    && path[|path| - 2].Cut?
    && var a := path[|path| - 2].area;
    && Takes(path[|path| - 3], a) && path[|path| - 1] == Release(a)
    && path[|path| - 2].bytes == AlignedPayload(a + 8, alignment) - (a + 8)
  }

  /** The steps that a call can take. */
  ghost predicate Does(t: Tiles, call: Call, path: seq<Step>) {
    && Legal(t, path)
    && match call
       case Init => path == [] || (|path| == 1 && path[0].Grow? && path[0].free && path[0].length == 4096)
       case Alloc(request) => Allocates(t, request, path)
       case Free(a) => path == [Release(a)]
       case FreeNull => path == []
       case Memalign(request, alignment) =>
         if alignment < 8 then Allocates(t, request, path)
         else if path == [] then Allocates(t, PaddedSize(request, alignment), path)
         else Aligns(t, request, alignment, path)
       case Trim => TrimPass(t, path)
  }

  lemma AllocatesServes(t: Tiles, request: nat, path: seq<Step>)
    requires Allocates(t, request, path)
    ensures forall s :: s in path ==> Serves(s)
  {
    hide TakesFor, GrowsFor, Apply, Enabled;
    forall s | s in path
      ensures Serves(s)
    {
      AllocateStep(t, request, path, s);
    }
  }

  lemma AllocateStep(t: Tiles, request: nat, path: seq<Step>, s: Step)
    requires Allocates(t, request, path) && s in path
    ensures Serves(s)
  {
    hide Picked, Apply, Enabled, CanServe, Rounded;
  }

  /** A call that leads from one heap to another. */
  ghost predicate Ran(t: Tiles, call: Call, path: seq<Step>, t': Tiles) {
    Does(t, call, path) && t' == After(t, path)
  }

  lemma NothingServed(t: Tiles)
    ensures Ran(t, Init, [], t) && Ran(t, FreeNull, [], t)
  {
    NoSteps(t);
  }

  lemma NotServed(t: Tiles, request: nat)
    requires Allocates(t, request, [])
    ensures Ran(t, Alloc(request), [], t)
  {
    NoSteps(t);
  }

  lemma LargeServed(t: Tiles, request: nat, s: Step, t': Tiles)
    requires Steps(t, s, t') && 4194304 < request + 8 && s.Grow? && !s.free && s.length == GrowthFor(RoundUp8(request))
    ensures Ran(t, Alloc(request), [s], t')
  {
    hide Enabled, Apply, GrowthFor, RoundUp8;
    SingleStep(t, s);
  }

  lemma TakenServed(t: Tiles, request: nat, s: Step, t': Tiles)
    requires Bucketed(request) && Steps(t, s, t') && TakesFor(t, request, s)
    ensures Ran(t, Alloc(request), [s], t')
  {
    hide Enabled, Apply, TakesFor;
    SingleStep(t, s);
  }

  lemma GrownServed(t: Tiles, request: nat, grow: Step, t1: Tiles, s: Step, t2: Tiles)
    requires Bucketed(request) && Steps(t, grow, t1) && GrowsFor(t, Rounded(request), grow) && Steps(t1, s, t2)
    requires TakesFor(t1, request, s)
    ensures Ran(t, Alloc(request), [grow, s], t2)
  {
    hide Enabled, Apply, TakesFor, GrowsFor, Rounded;
    SingleStep(t, grow);
    OneStepMore(t, [grow], s);
    assert [grow] + [s] == [grow, s];
  }

  lemma SingleStep(t: Tiles, s: Step)
    requires Enabled(t, s)
    ensures Legal(t, [s]) && After(t, [s]) == Apply(t, s)
  {
    hide Enabled, Apply;
    NoSteps(t);
    OneStepMore(t, [], s);
    assert [] + [s] == [s];
  }

  lemma InitServed(t: Tiles, s: Step, t': Tiles)
    requires Steps(t, s, t') && s.Grow? && s.free && s.length == 4096
    ensures Ran(t, Init, [s], t')
  {
    hide Enabled, Apply, Legal, After;
    SingleStep(t, s);
  }

  lemma FreeServed(t: Tiles, a: nat, t': Tiles)
    requires Steps(t, Release(a), t')
    ensures Ran(t, Free(a), [Release(a)], t')
  {
    hide Enabled, Apply, Legal, After;
    SingleStep(t, Release(a));
  }

  lemma AlignServed(t: Tiles, request: nat, alignment: nat, path: seq<Step>, a: nat, t1: Tiles, t2: Tiles, t3: Tiles)
    requires 8 <= alignment && Ran(t, Alloc(PaddedSize(request, alignment)), path, t1) && path != []
    requires Takes(Last(path), a)
    requires a + 8 <= AlignedPayload(a + 8, alignment)
    requires Steps(t1, Cut(a, AlignedPayload(a + 8, alignment) - (a + 8)), t2) && Steps(t2, Release(a), t3)
    ensures Ran(t, Memalign(request, alignment),
              path + [Cut(a, AlignedPayload(a + 8, alignment) - (a + 8))] + [Release(a)], t3)
  {
    hide Enabled, Apply, Legal, After, Allocates, AlignedPayload;
    var cut := Cut(a, AlignedPayload(a + 8, alignment) - (a + 8));
    OneStepMore(t, path, cut);
    OneStepMore(t, path + [cut], Release(a));
    var all := path + [cut] + [Release(a)];
    assert all[..|all| - 2] == path && all[|all| - 3] == Last(path) && all[|all| - 2] == cut;
  }

  lemma SmallAlignServed(t: Tiles, request: nat, alignment: nat, path: seq<Step>, t': Tiles)
    requires alignment < 8 && Ran(t, Alloc(request), path, t')
    ensures Ran(t, Memalign(request, alignment), path, t')
  {
    hide Legal, After, Allocates;
  }

  lemma NotAligned(t: Tiles, request: nat, alignment: nat, t': Tiles)
    requires 8 <= alignment && Ran(t, Alloc(PaddedSize(request, alignment)), [], t')
    ensures Ran(t, Memalign(request, alignment), [], t')
  {
    hide Legal, After, Allocates;
  }

  lemma TrimServed(t: Tiles, path: seq<Step>, t': Tiles)
    requires Legal(t, path) && t' == After(t, path) && (forall s :: s in path ==> IsTrim(s)) && NothingLeft(t')
    ensures Ran(t, Trim, path, t')
  {
    hide Legal, After;
  }

  ghost function EmptyHeap(): Tiles {
    Tiles(map[], {}, map[], map[])
  }

  /** Calls one after the other, from the empty heap. */
  ghost predicate Calls(states: seq<Tiles>, calls: seq<Call>, paths: seq<seq<Step>>) {
    && |states| == |calls| + 1 && |paths| == |calls| && states[0] == EmptyHeap()
    && (forall n {:trigger calls[n]} :: 0 <= n < |calls| ==>
           Does(states[n], calls[n], paths[n]) && states[n + 1] == After(states[n], paths[n]))
  }

  /** One more call after a sequence of calls. */
  lemma OneCallMore(states: seq<Tiles>, calls: seq<Call>, paths: seq<seq<Step>>, call: Call, path: seq<Step>, t: Tiles)
    requires Calls(states, calls, paths) && Ran(states[|calls|], call, path, t)
    ensures Calls(states + [t], calls + [call], paths + [path])
  {
    hide Legal, Enabled, Apply, TrimPass, Aligns, Allocates;
    var states', calls', paths' := states + [t], calls + [call], paths + [path];
    forall n | 0 <= n < |calls'|
      ensures Does(states'[n], calls'[n], paths'[n]) && states'[n + 1] == After(states'[n], paths'[n])
    {
      if n < |calls| { assert Does(states[n], calls[n], paths[n]); }
    }
  }

  lemma OnlyTrimsAreUnsafe(t: Tiles, call: Call, path: seq<Step>)
    requires Does(t, call, path) && call != Trim && path != []
    ensures Safe(After(t, ButLast(path)), Last(path))
  {
    hide Legal, After, Enabled, Allocates;
    assert Last(path) in path;
    match call
    case Alloc(request) => AllocatesServes(t, request, path);
    case Memalign(request, alignment) => if alignment < 8 { AllocatesServes(t, request, path); }
    case _ =>
  }

  /** Steps are legal from a tiled heap only. */
  lemma StartsTiled(t: Tiles, path: seq<Step>)
    requires Legal(t, path) && path != []
    ensures TilesOk(t)
  {
    hide Apply, TilesOk;
    PrefixLegal(t, path, 1);
    assert path[..1] == [path[0]] && ButLast(path[..1]) == [];
    assert Enabled(After(t, []), Last(path[..1]));
    EnabledTiled(t, path[0]);
  }

  lemma CallExact(t: Tiles, call: Call, path: seq<Step>)
    requires TilesOk(t) && Plain(t) && Does(t, call, path)
    ensures TilesOk(After(t, path)) <==> (call == Trim ==> TrimSafe(t))
    ensures TilesOk(After(t, path)) ==> Plain(After(t, path))
  {
    hide TilesOk, Plain, TrimSafe, After, Legal, Safe;
    if call == Trim {
      TrimExact(t, path);
    } else {
      PathTiled(t, path);
      if path != [] { OnlyTrimsAreUnsafe(t, call, path); }
    }
    if TilesOk(After(t, path)) { PathPlain(t, path); }
  }

  lemma EmptyTiled()
    ensures TilesOk(EmptyHeap()) && Plain(EmptyHeap()) && NarrowSentinels(EmptyHeap())
  {
  }

  lemma {:induction false} TiledIsPlain(states: seq<Tiles>, calls: seq<Call>, paths: seq<seq<Step>>, n: nat)
    requires Calls(states, calls, paths) && n < |states|
    ensures TilesOk(states[n]) ==> Plain(states[n])
  {
    hide TilesOk, Plain, TrimSafe, Does, Legal, After;
    if n == 0 {
      EmptyTiled();
    } else {
      var k := n - 1;
      assert Does(states[k], calls[k], paths[k]);
      TiledIsPlain(states, calls, paths, k);
      CallsTiled(states, calls, paths, k);
      if TilesOk(states[k]) { CallExact(states[k], calls[k], paths[k]); }
    }
  }

  /** What calls do to a heap that is not tiled is not modelled: it stays as it is. */
  lemma CallsTiled(states: seq<Tiles>, calls: seq<Call>, paths: seq<seq<Step>>, k: nat)
    requires Calls(states, calls, paths) && k < |calls|
    ensures !TilesOk(states[k]) ==> states[k + 1] == states[k]
  {
    hide TilesOk, Apply, Enabled;
    assert Does(states[k], calls[k], paths[k]);
    if paths[k] != [] { StartsTiled(states[k], paths[k]); }
  }

  /**
   Over any sequence of calls from the empty heap: the heap is tiled if and only if trimming was called
   only when it was safe.
   */
  lemma {:induction false} TiledIffTrimmedSafely(states: seq<Tiles>, calls: seq<Call>, paths: seq<seq<Step>>, n: nat)
    requires Calls(states, calls, paths) && n < |states|
    ensures TilesOk(states[n]) <==> forall k {:trigger calls[k]} :: 0 <= k < n && calls[k] == Trim ==>
              TrimSafe(states[k])
  {
    hide TilesOk, Plain, TrimSafe, Does, Legal, After;
    if n == 0 {
      EmptyTiled();
    } else {
      var k := n - 1;
      assert Does(states[k], calls[k], paths[k]);
      TiledIffTrimmedSafely(states, calls, paths, k);
      TiledIsPlain(states, calls, paths, k);
      CallsTiled(states, calls, paths, k);
      if TilesOk(states[k]) { CallExact(states[k], calls[k], paths[k]); }
    }
  }

  // ----- calls that keep the sentinels narrow -----

  lemma {:induction false} PathNarrow(t: Tiles, path: seq<Step>)
    requires TilesOk(t) && NarrowSentinels(t) && Legal(t, path) && forall s :: s in path ==> !s.Release?
    ensures TilesOk(After(t, path)) && NarrowSentinels(After(t, path))
    decreases |path|
  {
    hide TilesOk, Enabled, Apply, NarrowSentinels, Safe;
    if path != [] {
      assert forall s :: s in ButLast(path) ==> s in path;
      PathNarrow(t, ButLast(path));
      var t' := After(t, ButLast(path));
      StaysNarrow(t', Last(path));
      NarrowIsSafe(t', Last(path));
      StepExact(t', Last(path));
    }
  }

  /** A block that has just been taken does not follow a wide sentinel, and no free area either. */
  lemma TakenNarrow(t: Tiles, s: Step, a: nat)
    requires Enabled(t, s) && Takes(s, a) && NarrowSentinels(t)
    ensures var t' := Apply(t, s);
            && a in t'.hdr && t'.hdr[a].left in t'.hdr && !t'.hdr[t'.hdr[a].left].free
            && (AtLeftEnd(t', a) ==> NarrowSentinel(t', a))
  {
    hide TilesOk, AreaOk;
    FreeMeansFree(t, a);
    FreeAreaBounds(t, a);
    Neighbourhood(t, a);
    if AtLeftEnd(t, a) { assert NarrowSentinel(t, a); }
  }

  lemma CutNarrow(t: Tiles, a: nat, m: nat)
    requires CanSplit(t, a, m, false) && t.hdr[a].left in t.hdr && !t.hdr[t.hdr[a].left].free
    requires AtLeftEnd(t, a) ==> NarrowSentinel(t, a)
    requires Releasing(Split(t, a, m, false), a)
    ensures !BehindWide(Split(t, a, m, false), a)
  {
    hide TilesOk, AreaOk, UsedAreas, FreeAreas;
    Neighbourhood(t, a);
    NothingInside(t, a, a + m);
  }

  lemma LastTwo(t: Tiles, path: seq<Step>, s: Step, r: Step)
    requires Legal(t, path) && 2 <= |path| && path[|path| - 2] == s && path[|path| - 1] == r
    ensures Legal(t, path[..|path| - 2]) && Enabled(After(t, path[..|path| - 2]), s)
    ensures Enabled(Apply(After(t, path[..|path| - 2]), s), r)
    ensures After(t, path) == Apply(Apply(After(t, path[..|path| - 2]), s), r)
  {
    hide Enabled, Apply;
    assert ButLast(ButLast(path)) == path[..|path| - 2] && Last(path) == r && Last(ButLast(path)) == s;
  }

  /** The path up to the taking of the block, and the block taken. */
  lemma TakenPart(t: Tiles, path: seq<Step>, a: nat)
    requires TilesOk(t) && NarrowSentinels(t) && Legal(t, path) && path != [] && (forall s :: s in path ==> Serves(s))
    requires Takes(Last(path), a)
    ensures TilesOk(After(t, path)) && NarrowSentinels(After(t, path))
    ensures var t' := After(t, path);
            && a in t'.hdr && t'.hdr[a].left in t'.hdr && !t'.hdr[t'.hdr[a].left].free
            && (AtLeftEnd(t', a) ==> NarrowSentinel(t', a))
  {
    hide TilesOk, NarrowSentinels, AtLeftEnd, NarrowSentinel, Enabled, Apply;
    assert forall s :: s in ButLast(path) ==> s in path;
    PathNarrow(t, ButLast(path));
    PathNarrow(t, path);
    TakenNarrow(After(t, ButLast(path)), Last(path), a);
  }

  lemma CutAndReleased(t: Tiles, a: nat, m: nat)
    requires Enabled(t, Cut(a, m)) && Enabled(Apply(t, Cut(a, m)), Release(a)) && NarrowSentinels(t)
    requires a in t.hdr && t.hdr[a].left in t.hdr && !t.hdr[t.hdr[a].left].free
    requires AtLeftEnd(t, a) ==> NarrowSentinel(t, a)
    ensures TilesOk(Apply(Apply(t, Cut(a, m)), Release(a))) && NarrowSentinels(Apply(Apply(t, Cut(a, m)), Release(a)))
  {
    hide TilesOk, NarrowSentinels, AtLeftEnd, NarrowSentinel, BehindWide, FillsSpan, Released, Split, UsedAreas,
         FreeAreas;
    CutNarrow(t, a, m);
    StaysNarrow(t, Cut(a, m));
    ReleaseNarrow(Apply(t, Cut(a, m)), a);
    ReleasedOk(Apply(t, Cut(a, m)), a);
  }

  lemma AlignNarrow(t: Tiles, request: nat, alignment: nat, path: seq<Step>)
    requires TilesOk(t) && NarrowSentinels(t) && Legal(t, path) && Aligns(t, request, alignment, path)
    ensures TilesOk(After(t, path)) && NarrowSentinels(After(t, path))
  {
    hide TilesOk, NarrowSentinels, AtLeftEnd, NarrowSentinel, Enabled, Apply, Legal, After, Allocates, AlignedPayload;
    var n := |path|;
    AllocatesServes(t, PaddedSize(request, alignment), path[..n - 2]);
    var taken, a, m := path[..n - 2], path[n - 2].area, path[n - 2].bytes;
    assert path[n - 2] == Cut(a, m) && Last(taken) == path[n - 3];
    LastTwo(t, path, Cut(a, m), Release(a));
    TakenPart(t, taken, a);
    CutAndReleased(After(t, taken), a, m);
  }

  /** Calls other than Free keep the sentinels in front of free areas narrow. */
  lemma CallNarrow(t: Tiles, call: Call, path: seq<Step>)
    requires TilesOk(t) && NarrowSentinels(t) && Does(t, call, path) && !call.Free?
    ensures TilesOk(After(t, path)) && NarrowSentinels(After(t, path))
  {
    hide TilesOk, NarrowSentinels, After, Legal, Aligns, Allocates;
    match call
    case Memalign(request, alignment) =>
      if alignment < 8 {
        AllocatesServes(t, request, path);
        PathNarrow(t, path);
      } else if path == [] {
        PathNarrow(t, path);
      } else {
        AlignNarrow(t, request, alignment, path);
      }
    case Alloc(request) =>
      AllocatesServes(t, request, path);
      PathNarrow(t, path);
    case _ => PathNarrow(t, path);
  }

  /** A Free does so unless it leaves a free stretch right behind a wide sentinel. */
  ghost predicate LeavesNarrow(t: Tiles, call: Call) {
    call.Free? && Releasing(t, call.block) ==> FillsSpan(t, call.block) || !BehindWide(t, call.block)
  }

  /** As long as no Free does that, trimming is always safe. */
  lemma {:induction false} NarrowCalls(states: seq<Tiles>, calls: seq<Call>, paths: seq<seq<Step>>, n: nat)
    requires Calls(states, calls, paths) && n < |states|
    requires forall k {:trigger calls[k]} :: 0 <= k < n ==> LeavesNarrow(states[k], calls[k])
    ensures TilesOk(states[n]) && NarrowSentinels(states[n]) && TrimSafe(states[n])
  {
    hide TilesOk, NarrowSentinels, TrimSafe, LeavesNarrow, Does;
    if n == 0 {
      EmptyTiled();
    } else {
      var k := n - 1;
      assert Does(states[k], calls[k], paths[k]) && LeavesNarrow(states[k], calls[k]);
      NarrowCalls(states, calls, paths, k);
      OneCallNarrow(states[k], calls[k], paths[k]);
    }
    NarrowIsTrimSafe(states[n]);
  }

  lemma OneCallNarrow(t: Tiles, call: Call, path: seq<Step>)
    requires TilesOk(t) && NarrowSentinels(t) && Does(t, call, path) && LeavesNarrow(t, call)
    ensures TilesOk(After(t, path)) && NarrowSentinels(After(t, path))
  {
    hide TilesOk, NarrowSentinels, BehindWide, FillsSpan, Released;
    if call.Free? {
      var a := call.block;
      assert ButLast(path) == [] && Last(path) == Release(a) && After(t, []) == t;
      assert Enabled(t, Release(a));
      ReleaseNarrow(t, a);
      ReleasedOk(t, a);
    } else {
      CallNarrow(t, call, path);
    }
  }

  lemma NarrowIsTrimSafe(t: Tiles)
    requires NarrowSentinels(t)
    ensures TrimSafe(t)
  {
    hide AtLeftEnd, AtRightEnd;
  }

  // ----- how the heap can break -----

  /** Step m of the path moved the start of span i and had exactly eight bytes left over. */
  ghost predicate WroteWide(t: Tiles, path: seq<Step>, m: nat, i: nat) {
    && m < |path| && Legal(t, path[..m]) && path[m].TrimStart? && Enabled(After(t, path[..m]), path[m])
    && var before, f := After(t, path[..m]), path[m].area;
    && f in before.spanOf && before.spanOf[f] == i && WidthLeft(before, f) == 16
  }

  /** A wide sentinel has been written by a trim that had exactly eight bytes left over. */
  lemma {:induction false} WideFromTrim(path: seq<Step>, i: nat) returns (m: nat)
    requires Legal(EmptyHeap(), path) && TilesOk(After(EmptyHeap(), path)) && i in After(EmptyHeap(), path).spans
    requires !HasWidth(After(EmptyHeap(), path), i, 8)
    ensures WroteWide(EmptyHeap(), path, m, i)
    decreases |path|
  {
    hide TilesOk, Enabled, Apply, Safe, WidthLeft;
    var t, s := After(EmptyHeap(), ButLast(path)), Last(path);
    EnabledTiled(t, s);
    StepExact(t, s);
    WidthAfter(t, s, i);
    assert path[..|path| - 1] == ButLast(path);
    if width :| HasWidth(t, i, width) && HasWidth(Apply(t, s), i, width) {
      m := WideFromTrim(ButLast(path), i);
      assert ButLast(path)[..m] == path[..m];
    } else {
      m := |path| - 1;
      TrimmedSpan(t, s);
    }
  }

  lemma TrimmedSpan(t: Tiles, s: Step)
    requires Enabled(t, s) && s.TrimStart?
    ensures Visited(t, s.area) && s.area in t.spanOf && WidthLeft(t, s.area) in {8, 16}
  {
    hide TilesOk, NewStart;
  }
}
