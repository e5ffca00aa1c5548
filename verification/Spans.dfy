/** Adding spans to the tiling, removing them and cutting pages off their ends. */
module Spans {
  import opened Tiling

  // ----- spans that a change does not concern -----

  ghost predicate InSpan(t: Tiles, x: nat, i: nat) {
    x in t.areas && x in t.spanOf && t.spanOf[x] == i
  }

  /** Span j, its areas and their headers are the same in both tilings. */
  ghost predicate SpanKept(t: Tiles, t': Tiles, j: nat) {
    && j in t.spans && j in t'.spans && t'.spans[j] == t.spans[j]
    && (forall x {:trigger SameAt(t, t', x)} :: InSpan(t, x, j) ==> SameAt(t, t', x))
    && (forall x :: x in t'.areas && t.spans[j].base <= x <= t.spans[j].Top() ==> x in t.areas)
  }

  lemma KeptArea(t: Tiles, t': Tiles, j: nat, x: nat)
    requires TilesOk(t) && SpanKept(t, t', j) && InSpan(t, x, j)
    ensures AreaOk(t', x)
  {
    assert AreaOk(t, x);
    assert SameAt(t, t', x);
    var sp := t.spans[j];
    if sp.base < x {
      LeftAdjacent(t, x);
      assert SameAt(t, t', t.hdr[x].left);
    }
    if x < sp.Top() {
      var r := x + t.hdr[x].size;
      assert Adjacent(t, x, r);
      assert SameAt(t, t', r);
    }
  }

  lemma KeptSpan(t: Tiles, t': Tiles, j: nat)
    requires TilesOk(t) && SpanKept(t, t', j)
    ensures SpanTiled(t', j)
  {
    assert SpanTiled(t, j);
    var sp := t.spans[j];
    assert SameAt(t, t', sp.base) && SameAt(t, t', sp.Top());
    if sp.length > MAX_SPAN {
      assert AreaOk(t, sp.base);
      assert Adjacent(t, sp.base, sp.base + 8);
      assert SameAt(t, t', sp.base + 8);
    }
  }

  /** Only span i changes, and it takes up no address of another span. */
  ghost predicate OneSpanChanges(t: Tiles, t': Tiles, i: nat) {
    && TilesOk(t)
    && (forall j :: j in t'.spans && j != i ==> j in t.spans)
    && (forall j {:trigger SpanKept(t, t', j)} :: j in t.spans && j != i ==> SpanKept(t, t', j))
    && (forall x :: x in t'.areas ==> InSpan(t', x, i) || exists j :: j != i && j in t.spans && InSpan(t, x, j))
    && (i in t'.spans ==>
          && SpanTiled(t', i)
          && (forall x {:trigger AreaOk(t', x)} :: InSpan(t', x, i) ==> AreaOk(t', x))
          && (forall j {:trigger Apart(t'.spans[i], t.spans[j])} :: j in t.spans && j != i ==>
                 Apart(t'.spans[i], t.spans[j])))
    && (i !in t'.spans ==> forall x :: x in t'.areas ==> !InSpan(t', x, i))
  }

  lemma OneSpanChangesOk(t: Tiles, t': Tiles, i: nat)
    requires OneSpanChanges(t, t', i)
    ensures TilesOk(t')
  {
    hide AreaOk, SpanTiled, SameAt;
    forall j | j in t'.spans
      ensures SpanTiled(t', j)
    {
      if j != i {
        assert SpanKept(t, t', j);
        KeptSpan(t, t', j);
      }
    }
    forall x | x in t'.areas
      ensures AreaOk(t', x)
    {
      if InSpan(t', x, i) {
        assert i in t'.spans;
      } else {
        var j :| j != i && j in t.spans && InSpan(t, x, j);
        assert SpanKept(t, t', j);
        KeptArea(t, t', j, x);
      }
    }
    forall j, k | j in t'.spans && k in t'.spans && j != k
      ensures Apart(t'.spans[j], t'.spans[k])
    {
      assert j != i ==> SpanKept(t, t', j);
      assert k != i ==> SpanKept(t, t', k);
      assert j != i && k != i ==> Apart(t.spans[j], t.spans[k]);
      assert j == i ==> Apart(t'.spans[i], t.spans[k]);
      assert k == i ==> Apart(t'.spans[i], t.spans[j]);
    }
  }

  // ----- a new span -----

  /** A span with a sentinel at each end and one area in between. */
  ghost function AddSpan(t: Tiles, i: nat, base: nat, length: nat, free: bool): Tiles
    requires 32 <= length
  {
    Tiles(t.hdr[base := Header(0, false, 8)][base + 8 := Header(base, free, length - 16)]
        [base + length - 8 := Header(base + 8, false, 0)],
          t.areas + {base, base + 8, base + length - 8},
          t.spanOf[base := i][base + 8 := i][base + length - 8 := i],
          t.spans[i := Span(base, length)])
  }

  ghost predicate CanAdd(t: Tiles, i: nat, base: nat, length: nat, free: bool) {
    && TilesOk(t) && i !in t.spans && SpanOk(Span(base, length)) && (free ==> length <= MAX_SPAN)
    && (forall j {:trigger t.spans[j]} :: j in t.spans ==> Apart(Span(base, length), t.spans[j]))
  }

  lemma AddedAreas(t: Tiles, i: nat, base: nat, length: nat, free: bool, x: nat)
    requires CanAdd(t, i, base, length, free) && x in t.areas
    ensures x in t.hdr && x in t.spanOf && t.spanOf[x] in t.spans && (x < base || base + length <= x)
  {
    assert AreaOk(t, x);
    assert Apart(Span(base, length), t.spans[t.spanOf[x]]);
  }

  lemma EightsAdd(a: nat, b: nat)
    requires a % 8 == 0 && b % 8 == 0
    ensures (a + 8) % 8 == 0 && (a + b - 8) % 8 == 0 && (b - 16) % 8 == 0
  {
    assert a + b - 8 == 8 * (a / 8 + b / 8 - 1) && b - 16 == 8 * (b / 8 - 2);
  }

  lemma PagesAligned(sp: Span)
    requires SpanOk(sp)
    ensures sp.base % 8 == 0 && (sp.base + 8) % 8 == 0 && sp.Top() % 8 == 0 && (sp.length - 16) % 8 == 0
    ensures 4096 <= sp.length
  {
    PageAligned8(sp.base);
    PageAligned8(sp.length);
    EightsAdd(sp.base, sp.length);
  }

  lemma AddedOk(t: Tiles, i: nat, base: nat, length: nat, free: bool)
    requires CanAdd(t, i, base, length, free)
    ensures 4096 <= length
    ensures AreaOk(AddSpan(t, i, base, length, free), base)
    ensures AreaOk(AddSpan(t, i, base, length, free), base + 8)
    ensures AreaOk(AddSpan(t, i, base, length, free), base + length - 8)
  {
    hide TilesOk, SpanOk, Apart;
    PagesAligned(Span(base, length));
    var t' := AddSpan(t, i, base, length, free);
    forall y | y in t'.areas
      ensures y < base || base + length <= y || y in {base, base + 8, base + length - 8}
    {
      if y in t.areas { AddedAreas(t, i, base, length, free, y); }
    }
  }

  lemma AddSpanOk(t: Tiles, i: nat, base: nat, length: nat, free: bool)
    requires CanAdd(t, i, base, length, free)
    ensures TilesOk(AddSpan(t, i, base, length, free))
  {
    hide TilesOk, AreaOk;
    AddedOk(t, i, base, length, free);
    var t' := AddSpan(t, i, base, length, free);
    forall x | x in t.areas
      ensures x in t.spanOf && t.spanOf[x] in t.spans && SameAt(t, t', x)
    {
      AddedAreas(t, i, base, length, free, x);
    }
    forall j | j in t.spans
      ensures SpanKept(t, t', j)
    {
      assert Apart(Span(base, length), t.spans[j]);
    }
    forall x | InSpan(t', x, i)
      ensures AreaOk(t', x)
    {
      if x in t.areas { AddedAreas(t, i, base, length, free, x); }
    }
    forall x | x in t'.areas
      ensures InSpan(t', x, i) || exists j :: j != i && j in t.spans && InSpan(t, x, j)
    {
      if x in t.areas { assert InSpan(t, x, t.spanOf[x]); }
    }
    OneSpanChangesOk(t, t', i);
  }

  // ----- giving a span back -----

  /** All areas of span i disappear; what its pages held no longer matters. */
  ghost function RemoveSpan(t: Tiles, hdr: map<nat, Header>, i: nat): Tiles {
    Tiles(hdr, (set x | x in t.areas && !InSpan(t, x, i)), t.spanOf, t.spans - {i})
  }

  lemma RemoveSpanOk(t: Tiles, hdr: map<nat, Header>, i: nat)
    requires TilesOk(t)
    requires forall x :: x in t.areas && x in t.hdr && !InSpan(t, x, i) ==> x in hdr && hdr[x] == t.hdr[x]
    ensures TilesOk(RemoveSpan(t, hdr, i))
  {
    var t' := RemoveSpan(t, hdr, i);
    forall x | x in t.areas
      ensures x in t.hdr && x in t.spanOf && t.spanOf[x] in t.spans
    {
      assert AreaOk(t, x);
    }
    hide TilesOk, AreaOk;
    forall j | j in t.spans && j != i
      ensures SpanKept(t, t', j)
    {
    }
    forall x | x in t'.areas
      ensures InSpan(t', x, i) || exists j :: j != i && j in t.spans && InSpan(t, x, j)
    {
      assert InSpan(t, x, t.spanOf[x]);
    }
    OneSpanChangesOk(t, t', i);
  }

  /** A change inside span i leaves the other spans alone when all headers outside its old extent stay. */
  lemma OthersKept(t: Tiles, t': Tiles, i: nat)
    requires TilesOk(t) && i in t.spans
    requires forall j :: j in t.spans && j != i ==> j in t'.spans && t'.spans[j] == t.spans[j]
    requires forall x {:trigger SameAt(t, t', x)} ::
               x in t.areas && (x < t.spans[i].base || t.spans[i].Top() < x) && x in t.hdr && x in t.spanOf ==>
                 SameAt(t, t', x)
    requires forall x :: x in t'.areas && (x < t.spans[i].base || t.spans[i].Top() < x) ==> x in t.areas
    ensures forall j {:trigger SpanKept(t, t', j)} :: j in t.spans && j != i ==> SpanKept(t, t', j)
    ensures forall x :: x in t'.areas && (x < t.spans[i].base || t.spans[i].Top() < x) ==>
              exists j :: j != i && j in t.spans && InSpan(t, x, j)
    ensures forall x :: x in t.areas && x in t.spanOf && t.spans[i].base <= x <= t.spans[i].Top() ==> t.spanOf[x] == i
  {
    forall x | x in t.areas && x in t.spanOf && t.spans[i].base <= x <= t.spans[i].Top()
      ensures t.spanOf[x] == i
    {
      assert AreaOk(t, x);
      assert SpanTiled(t, t.spanOf[x]) && SpanTiled(t, i);
      SpansApart(t, i);
    }
    forall j | j in t.spans && j != i
      ensures SpanKept(t, t', j)
    {
      assert SpanTiled(t, j) && SpanTiled(t, i);
      assert Apart(t.spans[i], t.spans[j]);
      forall x | InSpan(t, x, j)
        ensures SameAt(t, t', x)
      {
        assert AreaOk(t, x);
      }
    }
    forall x | x in t'.areas && (x < t.spans[i].base || t.spans[i].Top() < x)
      ensures exists j :: j != i && j in t.spans && InSpan(t, x, j)
    {
      assert AreaOk(t, x);
      assert InSpan(t, x, t.spanOf[x]);
    }
  }

  lemma AreaLocated(t: Tiles, x: nat)
    requires TilesOk(t) && x in t.areas
    ensures Located(t, x)
  {
    assert AreaOk(t, x);
  }

  lemma AreaIsOk(t: Tiles, x: nat)
    requires TilesOk(t) && x in t.areas
    ensures AreaOk(t, x)
  {
  }

  lemma NothingInside(t: Tiles, a: nat, x: nat)
    requires TilesOk(t) && a in t.areas && a in t.hdr
    ensures a < x < a + t.hdr[a].size ==> x !in t.areas
  {
    assert AreaOk(t, a);
  }

  lemma SpansApart(t: Tiles, i: nat)
    requires TilesOk(t) && i in t.spans
    ensures forall j {:trigger t.spans[j]} :: j in t.spans && j != i ==> Apart(t.spans[i], t.spans[j])
  {
  }

  // ----- cutting pages off the right end -----

  /** The free area at f gives up its last `freed` bytes; the right sentinel moves down. */
  ghost function TrimRight(t: Tiles, f: nat, freed: nat): Tiles
    requires f in t.hdr && f in t.spanOf && t.spanOf[f] in t.spans && freed <= t.hdr[f].size
    requires freed <= t.spans[t.spanOf[f]].length
  {
    var i, n := t.spanOf[f], t.hdr[f].size - freed;
    Tiles(t.hdr[f + n := Header(f, false, 0)][f := t.hdr[f].(size := n)],
          t.areas - {f + t.hdr[f].size} + {f + n}, t.spanOf[f + n := i],
          t.spans[i := Span(t.spans[i].base, t.spans[i].length - freed)])
  }

  ghost predicate CanTrimRight(t: Tiles, f: nat, freed: nat) {
    && TilesOk(t) && Interior(t, f) && t.hdr[f].free
    && f + t.hdr[f].size == t.spans[t.spanOf[f]].Top()
    && 0 < freed && PageMultiple(freed) && freed + 16 <= t.hdr[f].size
  }

  ghost predicate PageMultiple(n: nat) { n % 4096 == 0 }

  lemma CutAligned(f: nat, n: nat, freed: nat)
    requires f % 8 == 0 && n % 8 == 0 && PageMultiple(freed) && freed <= n
    ensures (n - freed) % 8 == 0 && (f + n - freed) % 8 == 0
  {
    PageAligned8(freed);
    assert n - freed == 8 * (n / 8 - freed / 8) && f + n - freed == 8 * (f / 8 + n / 8 - freed / 8);
  }

  lemma CutSpan(sp: Span, freed: nat)
    requires SpanOk(sp) && PageMultiple(freed) && freed < sp.length
    ensures SpanOk(Span(sp.base, sp.length - freed)) && SpanOk(Span(sp.base + freed, sp.length - freed))
  {
  }

  lemma TrimRightAreas(t: Tiles, f: nat, freed: nat)
    requires CanTrimRight(t, f, freed)
    ensures f < t.spans[t.spanOf[f]].base + t.spans[t.spanOf[f]].length - freed - 8
    ensures AreaOk(TrimRight(t, f, freed), f)
    ensures AreaOk(TrimRight(t, f, freed), f + t.hdr[f].size - freed)
  {
    hide TilesOk, PageMultiple;
    Neighbourhood(t, f);
    CutAligned(f, t.hdr[f].size, freed);
  }

  lemma TrimRightOthers(t: Tiles, f: nat, freed: nat, x: nat)
    requires CanTrimRight(t, f, freed) && InSpan(t, x, t.spanOf[f]) && x < f
    ensures AreaOk(TrimRight(t, f, freed), x)
  {
    assert AreaOk(t, x) && AreaOk(t, f);
    var r := x + t.hdr[x].size;
    assert Adjacent(t, x, r);
  }

  lemma TrimRightSpan(t: Tiles, f: nat, freed: nat)
    requires CanTrimRight(t, f, freed)
    ensures SpanTiled(TrimRight(t, f, freed), t.spanOf[f])
  {
    assert SpanTiled(t, t.spanOf[f]) && AreaOk(t, t.spans[t.spanOf[f]].base);
    FreeInSmallSpan(t, f);
    hide TilesOk, PageMultiple, SpanOk;
    CutSpan(t.spans[t.spanOf[f]], freed);
  }

  lemma TrimRightOk(t: Tiles, f: nat, freed: nat)
    requires CanTrimRight(t, f, freed)
    ensures TilesOk(TrimRight(t, f, freed))
  {
    hide TilesOk, AreaOk, PageMultiple, SpanTiled;
    var i := t.spanOf[f];
    var t' := TrimRight(t, f, freed);
    TrimRightAreas(t, f, freed);
    TrimRightSpan(t, f, freed);
    forall x | x in t.areas
      ensures x in t.spanOf
    {
      AreaLocated(t, x);
    }
    forall x | InSpan(t', x, i)
      ensures AreaOk(t', x)
    {
      if x != f && x != f + t.hdr[f].size - freed {
        AreaLocated(t, x);
        NothingInside(t, f, x);
        TrimRightOthers(t, f, freed, x);
      }
    }
    OthersKept(t, t', i);
    SpansApart(t, i);
    OneSpanChangesOk(t, t', i);
  }

  // ----- cutting pages off the left end -----

  /** Subtraction of 32-bit sizes. */
  function WrapSub(a: nat, b: nat): nat
    requires a < 0x1_0000_0000 && b < 0x1_0000_0000
  {
    if b <= a then a - b else a + 0x1_0000_0000 - b
  }

  /**
   The free area at f, just right of the left sentinel, gives up everything below `start`. The new left
   sentinel swallows what is too small for a free area.
   */
  ghost function TrimLeft(t: Tiles, f: nat, start: nat): Tiles
    requires f in t.hdr && f in t.spanOf && t.spanOf[f] in t.spans && f + t.hdr[f].size in t.hdr
    requires t.hdr[f].size < 0x1_0000_0000
    requires t.spans[t.spanOf[f]].base <= start < t.spans[t.spanOf[f]].base + 0x1_0000_0000
    requires start <= t.spans[t.spanOf[f]].base + t.spans[t.spanOf[f]].length
  {
    var i, right := t.spanOf[f], f + t.hdr[f].size;
    var n := WrapSub(t.hdr[f].size, start - t.spans[i].base);
    var spans := t.spans[i := Span(start, t.spans[i].base + t.spans[i].length - start)];
    if n < 16 then
      Tiles(t.hdr[start := Header(0, false, 8 + n)][right := t.hdr[right].(left := start)],
            t.areas - {t.spans[i].base, f} + {start}, t.spanOf[start := i], spans)
    else
      Tiles(t.hdr[start := Header(0, false, 8)][start + 8 := Header(start, true, n)]
          [right := t.hdr[right].(left := start + 8)],
            t.areas - {t.spans[i].base, f} + {start, start + 8}, t.spanOf[start := i][start + 8 := i], spans)
  }

  ghost predicate CanTrimLeft(t: Tiles, f: nat, start: nat) {
    && TilesOk(t) && f in t.areas && f in t.hdr && t.hdr[f].free && t.hdr[f].size < 0x1_0000_0000
    && Interior(t, f)
    && var sp, right := t.spans[t.spanOf[f]], f + t.hdr[f].size;
    && sp.base in t.hdr && t.hdr[sp.base].size < 0x1_0000_0000 && right in t.hdr && t.hdr[f].left == sp.base
    && right < sp.Top()
    && sp.base < start < sp.base + 0x1_0000_0000 && PageMultiple(start) && start + 8 <= right
  }

  /** The left sentinel in front of f is exactly one header. */
  ghost predicate NarrowSentinel(t: Tiles, f: nat) {
    f in t.hdr && t.hdr[f].left in t.hdr && t.hdr[t.hdr[f].left].size == 8
  }

  lemma PageAligned8(start: nat)
    requires PageMultiple(start)
    ensures start % 8 == 0
  {
    var k := start / 4096;
    assert start == (512 * k) * 8;
    assert (512 * k) * 8 % 8 == 0;
  }

  lemma NextPage(a: nat, b: nat)
    requires PageMultiple(a) && PageMultiple(b) && a < b
    ensures a + 4096 <= b
  {
  }

  lemma PageBase(t: Tiles, i: nat)
    requires TilesOk(t) && i in t.spans
    ensures PageMultiple(t.spans[i].base) && SpanOk(t.spans[i]) && t.spans[i].base in t.areas
    ensures SpanTiled(t, i)
  {
    assert SpanTiled(t, i);
  }

  lemma StartAboveFree(t: Tiles, f: nat, start: nat)
    requires CanTrimLeft(t, f, start) && NarrowSentinel(t, f)
    ensures f == t.spans[t.spanOf[f]].base + 8 < start
  {
    hide TilesOk, PageMultiple, SpanTiled;
    Neighbourhood(t, f);
    PageBase(t, t.spanOf[f]);
    NextPage(t.spans[t.spanOf[f]].base, start);
  }

  lemma StartAligned(t: Tiles, f: nat, start: nat)
    requires CanTrimLeft(t, f, start)
    ensures start % 8 == 0 && (start + 8) % 8 == 0 && (f + t.hdr[f].size - start - 8) % 8 == 0
  {
    hide TilesOk, PageMultiple;
    Neighbourhood(t, f);
    PageAligned8(start);
  }

  lemma TrimLeftAreas(t: Tiles, f: nat, start: nat)
    requires CanTrimLeft(t, f, start) && NarrowSentinel(t, f)
    ensures AreaOk(TrimLeft(t, f, start), start)
    ensures f + t.hdr[f].size - start >= 24 ==> AreaOk(TrimLeft(t, f, start), start + 8)
  {
    hide TilesOk, PageMultiple;
    StartAboveFree(t, f, start);
    StartAligned(t, f, start);
    Neighbourhood(t, f);
  }

  lemma TrimLeftRight(t: Tiles, f: nat, start: nat)
    requires CanTrimLeft(t, f, start) && NarrowSentinel(t, f)
    ensures AreaOk(TrimLeft(t, f, start), f + t.hdr[f].size)
  {
    hide TilesOk, PageMultiple;
    StartAboveFree(t, f, start);
    Neighbourhood(t, f);
    AreaIsOk(t, f + t.hdr[f].size);
  }

  lemma TrimLeftBeyond(t: Tiles, f: nat, start: nat, x: nat)
    requires CanTrimLeft(t, f, start) && NarrowSentinel(t, f) && InSpan(t, x, t.spanOf[f]) && f + t.hdr[f].size < x
    ensures AreaOk(TrimLeft(t, f, start), x)
  {
    hide TilesOk, PageMultiple;
    StartAboveFree(t, f, start);
    AreaIsOk(t, x);
    Neighbourhood(t, f);
    LeftAdjacent(t, x);
  }

  lemma TrimLeftSpan(t: Tiles, f: nat, start: nat)
    requires CanTrimLeft(t, f, start) && NarrowSentinel(t, f)
    ensures SpanTiled(TrimLeft(t, f, start), t.spanOf[f])
  {
    FreeInSmallSpan(t, f);
    StartAboveFree(t, f, start);
    PageBase(t, t.spanOf[f]);
    hide TilesOk, SpanOk;
    var sp := t.spans[t.spanOf[f]];
    PageDifference(start, sp.base);
    CutSpan(sp, start - sp.base);
  }

  lemma PageDifference(a: nat, b: nat)
    requires PageMultiple(a) && PageMultiple(b) && b <= a
    ensures PageMultiple(a - b)
  {
  }

  lemma TrimLeftKeeps(t: Tiles, f: nat, start: nat)
    requires CanTrimLeft(t, f, start) && NarrowSentinel(t, f)
    ensures TilesOk(TrimLeft(t, f, start))
  {
    hide TilesOk, AreaOk, PageMultiple, SpanTiled;
    var i := t.spanOf[f];
    var t' := TrimLeft(t, f, start);
    StartAboveFree(t, f, start);
    TrimLeftAreas(t, f, start);
    TrimLeftSpan(t, f, start);
    Neighbourhood(t, f);
    forall x | x in t.areas
      ensures x in t.spanOf
    {
      AreaLocated(t, x);
    }
    forall x | InSpan(t', x, i)
      ensures AreaOk(t', x)
    {
      if x != start && (x != start + 8 || f + t.hdr[f].size <= x) {
        AreaLocated(t, x);
        NothingInside(t, f, x);
        NothingInside(t, t.spans[i].base, x);
        if x == f + t.hdr[f].size { TrimLeftRight(t, f, start); } else { TrimLeftBeyond(t, f, start, x); }
      }
    }
    OthersKept(t, t', i);
    SpansApart(t, i);
    OneSpanChangesOk(t, t', i);
  }

  /** Cutting pages off the left end keeps the areas adjacent exactly when the old sentinel was one header. */
  lemma TrimLeftOk(t: Tiles, f: nat, start: nat)
    requires CanTrimLeft(t, f, start)
    ensures TilesOk(TrimLeft(t, f, start)) <==> NarrowSentinel(t, f)
  {
    if NarrowSentinel(t, f) {
      TrimLeftKeeps(t, f, start);
    } else {
      WideSentinelBreaks(t, f, start);
    }
  }

  lemma WideSentinelBreaks(t: Tiles, f: nat, start: nat)
    requires CanTrimLeft(t, f, start) && !NarrowSentinel(t, f)
    ensures !TilesOk(TrimLeft(t, f, start))
  {
    var t' := TrimLeft(t, f, start);
    Neighbourhood(t, f);
    var right := f + t.hdr[f].size;
    assert right in t'.areas;
    assert !AreaOk(t', right);
  }
}
