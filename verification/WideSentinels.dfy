/** A sequence of calls, from initialization on, after which the heap is no longer tiled. */
module WideSentinels {
  import opened AreaMaps
  import opened Coalescing
  import opened HeapRuns
  import opened HeapSteps
  import opened Pages
  import opened Requests
  import opened SizeClasses
  import opened Spans
  import opened Tiling
  import opened Totals
  import opened Trimming

  /** The areas of the first page, which all calls leave as they are. */
  ghost predicate FirstPage(t: Tiles) {
    && 4096 in t.hdr && t.hdr[4096] == Header(0, false, 8) && 4104 in t.hdr && t.hdr[4104] == Header(4096, true, 4080)
    && 8184 in t.hdr && t.hdr[8184] == Header(4104, false, 0)
  }

  /** The areas of a second span. */
  ghost predicate Shows(t: Tiles, hdrs: map<nat, Header>) {
    forall x {:trigger hdrs[x]} :: x in hdrs ==>
        8192 <= x && x in t.hdr && x in t.spanOf && t.hdr[x] == hdrs[x] && t.spanOf[x] == 1
  }

  ghost function AllAreas(hdrs: map<nat, Header>): set<nat> {
    {4096, 4104, 8184} + hdrs.Keys
  }

  /** The heap is the first page and one more span, from `base` to 24576, with these areas. */
  ghost predicate Looks(t: Tiles, base: nat, hdrs: map<nat, Header>) {
    && TilesOk(t) && 8192 <= base <= 24576 && t.spans == map[0 := Span(4096, 4096), 1 := Span(base, 24576 - base)]
    && t.areas == AllAreas(hdrs) && Shows(t, hdrs) && FirstPage(t)
  }

  lemma Known(t: Tiles, base: nat, hdrs: map<nat, Header>, x: nat)
    requires Looks(t, base, hdrs) && x in hdrs
    ensures 8192 <= x && x in t.areas && x in t.hdr && x in t.spanOf && t.hdr[x] == hdrs[x] && t.spanOf[x] == 1
  {
    hide TilesOk;
    assert hdrs[x] == hdrs[x];
  }

  /** A free area is on the first page, or it is one of these. */
  lemma FreeKnown(t: Tiles, base: nat, hdrs: map<nat, Header>, x: nat)
    requires Looks(t, base, hdrs) && IsFree(t, x)
    ensures (x == 4104 && t.hdr[x] == Header(4096, true, 4080)) || (x in hdrs && t.hdr[x] == hdrs[x])
  {
    hide TilesOk;
    if x in hdrs { assert hdrs[x] == hdrs[x]; }
  }

  lemma LooksCarve(t: Tiles, base: nat, hdrs: map<nat, Header>, a: nat, m: nat)
    requires Looks(t, base, hdrs) && a in hdrs && hdrs[a].free && 16 <= m && m + 16 <= hdrs[a].size && m % 8 == 0
    ensures Enabled(t, Carve(a, m)) && a + hdrs[a].size in hdrs
    ensures Looks(Apply(t, Carve(a, m)), base,
                  hdrs[a := Header(hdrs[a].left, false, m)][a + hdrs[a].size := hdrs[a + hdrs[a].size].(left := a + m)]
                      [a + m := Header(a, true, hdrs[a].size - m)])
  {
    hide TilesOk, AreaOk, SpanOk, Adjacent, SpanTiled, CanSplit, UsedAreas, Shows, FirstPage;
    Known(t, base, hdrs, a);
    CarveOk(t, a, m) by { assert IsFree(t, a); }
    FreeAreaBounds(t, a);
    Neighbourhood(t, a);
    Known(t, base, hdrs, a + hdrs[a].size);
    ShowsSplit(t, hdrs, a, m);
  }

  lemma ShowsSplit(t: Tiles, hdrs: map<nat, Header>, a: nat, m: nat)
    requires Shows(t, hdrs) && FirstPage(t) && a in hdrs && m <= hdrs[a].size && a + hdrs[a].size in hdrs
    ensures a in t.hdr && a in t.spanOf && t.hdr[a] == hdrs[a] && a + t.hdr[a].size in t.hdr
    ensures FirstPage(Split(t, a, m, true))
    ensures Shows(Split(t, a, m, true),
                  hdrs[a := Header(hdrs[a].left, false, m)][a + hdrs[a].size := hdrs[a + hdrs[a].size].(left := a + m)]
                      [a + m := Header(a, true, hdrs[a].size - m)])
  {
    assert hdrs[a] == hdrs[a] && hdrs[a + hdrs[a].size] == hdrs[a + hdrs[a].size];
  }

  /** Where the stretch ends that the release of block a frees. */
  ghost function StretchTo(hdrs: map<nat, Header>, a: nat): nat
    requires a in hdrs && a + hdrs[a].size in hdrs
  {
    var right := a + hdrs[a].size;
    if hdrs[right].free then right + hdrs[right].size else right
  }

  lemma LooksFree(t: Tiles, base: nat, hdrs: map<nat, Header>, a: nat, next: map<nat, Header>)
    requires Looks(t, base, hdrs) && a in hdrs && !hdrs[a].free && hdrs[a].left != 0 && hdrs[a].size != 0
    requires hdrs[a].left in hdrs && !hdrs[hdrs[a].left].free && a + hdrs[a].size in hdrs
    requires var hi := StretchTo(hdrs, a);
             && a < hi && hi in hdrs && hdrs[hi].size != 0
             && next == (hdrs - (if hi == a + hdrs[a].size then {} else {a + hdrs[a].size}))
                        [a := Header(hdrs[a].left, true, hi - a)][hi := hdrs[hi].(left := a)]
    ensures Enabled(t, Release(a)) && Looks(Apply(t, Release(a)), base, next)
  {
    hide TilesOk, AreaOk, SpanOk, Adjacent, SpanTiled, Merge, AllAreas, FillsSpan, Low, High, UsedAreas, Shows,
         FirstPage;
    StretchKnown(t, base, hdrs, a);
    ReleasedOk(t, a);
    var hi := StretchTo(hdrs, a);
    ShowsMerge(t, hdrs, a, hi, next);
    forall x | x in hdrs
      ensures x in t.areas
    {
      Known(t, base, hdrs, x);
    }
    Known(t, base, hdrs, a);
    AreasMerge(t, hdrs, a, hi, next);
  }

  /** The stretch is not the whole span, and holds at most one more area. */
  lemma StretchKnown(t: Tiles, base: nat, hdrs: map<nat, Header>, a: nat)
    requires Looks(t, base, hdrs) && a in hdrs && !hdrs[a].free && hdrs[a].left != 0 && hdrs[a].size != 0
    requires hdrs[a].left in hdrs && !hdrs[hdrs[a].left].free && a + hdrs[a].size in hdrs
    requires StretchTo(hdrs, a) in hdrs && hdrs[StretchTo(hdrs, a)].size != 0
    ensures Releasing(t, a) && a in t.hdr && Low(t, a) == a && High(t, a) == StretchTo(hdrs, a) && !FillsSpan(t, a)
    ensures forall x :: x in t.areas && a < x < High(t, a) ==> x == a + hdrs[a].size && hdrs[x].free
  {
    hide TilesOk, AreaOk, SpanOk, Adjacent, SpanTiled, Shows, AllAreas;
    Known(t, base, hdrs, a);
    Known(t, base, hdrs, hdrs[a].left);
    Known(t, base, hdrs, a + hdrs[a].size);
    Known(t, base, hdrs, StretchTo(hdrs, a));
    assert IsUsed(t, a);
    StretchBounds(t, a);
    SpanEnds(t, a);
    AreaIsOk(t, High(t, a));
    forall x | x in t.areas && a < x < High(t, a)
      ensures x == a + hdrs[a].size && hdrs[x].free
    {
      StretchAreas(t, a, x);
    }
  }

  lemma ShowsMerge(t: Tiles, hdrs: map<nat, Header>, a: nat, hi: nat, next: map<nat, Header>)
    requires Shows(t, hdrs) && FirstPage(t) && a in hdrs && hi in hdrs && a < hi
    requires forall x :: x in next ==>
              && x in hdrs
              && next[x] == (if x == hi then hdrs[x].(left := a) else if x == a then Header(hdrs[a].left, true, hi - a)
                   else hdrs[x])
    ensures a in t.hdr && hi in t.hdr && Shows(Merge(t, a, hi, true), next) && FirstPage(Merge(t, a, hi, true))
    ensures Merge(t, a, hi, true).spans == t.spans
  {
    assert hdrs[a] == hdrs[a] && hdrs[hi] == hdrs[hi];
    forall x | x in next
      ensures 8192 <= x && x in t.hdr && x in t.spanOf && Merge(t, a, hi, true).hdr[x] == next[x] && t.spanOf[x] == 1
    {
      assert hdrs[x] == hdrs[x];
    }
  }

  lemma AreasMerge(t: Tiles, hdrs: map<nat, Header>, a: nat, hi: nat, next: map<nat, Header>)
    requires t.areas == AllAreas(hdrs) && 8192 <= a < hi && a in hdrs && hi in hdrs && a in t.hdr && hi in t.hdr
    requires forall x :: x in next <==> x in hdrs && !(a < x < hi)
    ensures Merge(t, a, hi, true).areas == AllAreas(next)
  {
  }

  // ----- the areas after each call -----

  /** After a request for 14336 bytes. */
  ghost function H1(): map<nat, Header> {
    map[8192 := Header(0, false, 8), 8200 := Header(8192, false, 14344), 22544 := Header(8200, true, 2024),
        24568 := Header(22544, false, 0)]
  }

  /** After a request for 1000 bytes. */
  ghost function H2(): map<nat, Header> {
    map[8192 := Header(0, false, 8), 8200 := Header(8192, false, 14344), 22544 := Header(8200, false, 1032),
        23576 := Header(22544, true, 992), 24568 := Header(23576, false, 0)]
  }

  /** After the first block has been released. */
  ghost function H3(): map<nat, Header> {
    H2()[8200 := Header(8192, true, 14344)]
  }

  /** After a request for 4096 bytes. */
  ghost function H4(): map<nat, Header> {
    H2()[8200 := Header(8192, false, 4104)][12304 := Header(8200, true, 10240)][22544 := Header(12304, false, 1032)]
  }

  /** After another one. */
  ghost function H5(): map<nat, Header> {
    H2()[8200 := Header(8192, false, 4104)][12304 := Header(8200, false, 4104)][16408 := Header(12304, true, 6136)]
        [22544 := Header(16408, false, 1032)]
  }

  /** After the first of the two has been released. */
  ghost function H6(): map<nat, Header> {
    H5()[8200 := Header(8192, true, 4104)]
  }

  /** After trimming: the sentinel has become two headers wide. */
  ghost function H7(): map<nat, Header> {
    map[12288 := Header(0, false, 16), 12304 := Header(12288, false, 4104), 16408 := Header(12304, true, 6136),
        22544 := Header(16408, false, 1032), 23576 := Header(22544, true, 992), 24568 := Header(23576, false, 0)]
  }

  /** After the second has been released. */
  ghost function H8(): map<nat, Header> {
    map[12288 := Header(0, false, 16), 12304 := Header(12288, true, 10240), 22544 := Header(12304, false, 1032),
        23576 := Header(22544, true, 992), 24568 := Header(23576, false, 0)]
  }

  // ----- which area is picked -----

  /** A bucket size between two payloads separates their buckets. */
  lemma FloorBetween(x: nat, y: nat, b: nat)
    requires 8 <= x < BucketFloor(b) <= y
    ensures Freeing(x) < b <= Freeing(y)
  {
    hide Freeing, BucketFloor;
    FreeingIsLastBucketReached(x);
    FreeingIsLastBucketReached(y);
    if b <= Freeing(x) { BucketFloorMonotone(b, Freeing(x)); }
    if Freeing(y) < b { BucketFloorMonotone(Freeing(y) + 1, b); }
  }

  /** Area a, alone in its bucket, is the only one that can be picked. */
  ghost predicate OnlyChoice(t: Tiles, rounded: nat, a: nat) {
    && CanServe(t, rounded, a)
    && (forall x {:trigger CanServe(t, rounded, x)} ::
          CanServe(t, rounded, x) && x != a ==> Freeing(t.hdr[a].size - 8) < Freeing(t.hdr[x].size - 8))
  }

  /** Then there is one way to meet the request. */
  lemma OneWay(t: Tiles, request: nat, s: Step)
    requires Bucketed(request) && s.Carve? && OnlyChoice(t, Rounded(request), s.area) && s.bytes == Rounded(request)
    requires t.hdr[s.area].size - s.bytes >= 16 && t.hdr[s.area].size - s.bytes > request / 64
    ensures Allocates(t, request, [s]) && forall path :: Allocates(t, request, path) ==> path == [s]
  {
    hide Freeing, Enabled, Apply, Rounded, IsFree;
    forall path: seq<Step> | Allocates(t, request, path)
      ensures path == [s]
    {
      assert CanServe(t, Rounded(request), s.area);
      assert |path| == 1;
      assert path[0].area == s.area;
    }
  }

  /** Of the areas of the heap only one is free and large enough. */
  lemma OnlyOne(t: Tiles, base: nat, hdrs: map<nat, Header>, rounded: nat, a: nat)
    requires Looks(t, base, hdrs) && a in hdrs && hdrs[a].free && rounded <= hdrs[a].size && 8 < hdrs[a].size
    requires 4080 < rounded && forall x :: x in hdrs && hdrs[x].free && x != a ==> hdrs[x].size < rounded
    ensures OnlyChoice(t, rounded, a)
  {
    hide TilesOk, Freeing, Looks;
    Known(t, base, hdrs, a);
    forall x | CanServe(t, rounded, x)
      ensures x == a
    {
      FreeKnown(t, base, hdrs, x);
    }
  }

  // ----- the calls -----

  /** The requests get the sizes used above, and the first one makes the heap grow by four pages. */
  lemma SizesAsRounded()
    ensures Rounded(14336) == 14344 && Rounded(1000) == 1032 && Rounded(4096) == 4104
    ensures Tried(4096, 14344, 0) == 16384
  {
    hide Allocating, RoundUp;
    RoundUpUnique(14360, 16384);
    SmallPowers();
    RoundedTo(14336, 69);
    RoundedTo(1000, 39);
    RoundedTo(4096, 55);
  }

  ghost function PageHeap(): Tiles {
    Tiles(map[4096 := Header(0, false, 8), 4104 := Header(4096, true, 4080), 8184 := Header(4104, false, 0)],
        {4096, 4104, 8184},
          map[4096 := 0, 4104 := 0, 8184 := 0], map[0 := Span(4096, 4096)])
  }

  lemma FirstGrowth()
    ensures Enabled(EmptyHeap(), Grow(0, 4096, 4096, true))
    ensures Apply(EmptyHeap(), Grow(0, 4096, 4096, true)) == PageHeap() && TilesOk(PageHeap())
  {
    hide TilesOk;
    EmptyTiled();
    AddSpanOk(EmptyHeap(), 0, 4096, 4096, true);
    assert Apply(EmptyHeap(), Grow(0, 4096, 4096, true)) == PageHeap();
  }

  /** The areas when the heap has grown for the first request. */
  ghost function Grown(): map<nat, Header> {
    map[8192 := Header(0, false, 8), 8200 := Header(8192, true, 16368), 24568 := Header(8200, false, 0)]
  }

  lemma SecondGrowth()
    ensures Enabled(PageHeap(), Grow(1, 8192, 16384, true))
    ensures Looks(Apply(PageHeap(), Grow(1, 8192, 16384, true)), 8192, Grown())
  {
    hide TilesOk;
    FirstGrowth();
    var t := PageHeap();
    assert CanAdd(t, 1, 8192, 16384, true);
    AddSpanOk(t, 1, 8192, 16384, true);
    SecondSpan(t);
  }

  lemma SecondSpan(t: Tiles)
    requires t.areas == {4096, 4104, 8184} && FirstPage(t) && t.spans == map[0 := Span(4096, 4096)]
    ensures var t' := AddSpan(t, 1, 8192, 16384, true);
            && t'.areas == AllAreas(Grown()) && FirstPage(t') && Shows(t', Grown())
            && t'.spans == map[0 := Span(4096, 4096), 1 := Span(8192, 16384)]
  {
  }

  lemma NeedsGrowth()
    ensures GrowsFor(PageHeap(), 14344, Grow(1, 8192, 16384, true))
  {
    hide Tried, Total, SpanLengths, PageHeap;
    SizesAsRounded();
    PageSize();
    PageAreas();
  }

  lemma PageSize()
    ensures Total(SpanLengths(PageHeap().spans)) == 4096
  {
    assert SpanLengths(PageHeap().spans) == map[][0 := 4096];
    TotalAdd(map[], 0, 4096);
    EmptyTotal();
  }

  lemma PageAreas()
    ensures forall x {:trigger CanServe(PageHeap(), 14344, x)} :: !CanServe(PageHeap(), 14344, x)
  {
  }

  lemma FirstRequest() returns (t2: Tiles)
    ensures Ran(PageHeap(), Alloc(14336), TenPaths()[1], t2) && Looks(t2, 8192, H1())
  {
    hide Looks, Enabled, Apply, GrowsFor, Rounded, Ran, PageHeap;
    SizesAsRounded();
    SecondGrowth();
    NeedsGrowth();
    var grow, carve := Grow(1, 8192, 16384, true), Carve(8200, 14344);
    var t1 := Apply(PageHeap(), grow);
    LooksCarve(t1, 8192, Grown(), 8200, 14344);
    OnlyOne(t1, 8192, Grown(), 14344, 8200);
    SizeKnown(t1, 8192, Grown(), 8200);
    OneWay(t1, 14336, carve);
    assert Grown()[8200 := Header(8192, false, 14344)][24568 := Header(22544, false, 0)]
        [22544 := Header(8200, true, 2024)] == H1();
    t2 := Apply(t1, carve);
    assert TakesFor(t1, 14336, carve);
    GrownServed(PageHeap(), 14336, grow, t1, carve, t2);
  }

  lemma SizeKnown(t: Tiles, base: nat, hdrs: map<nat, Header>, x: nat)
    requires Looks(t, base, hdrs) && x in hdrs
    ensures x in t.hdr && t.hdr[x].size == hdrs[x].size
  {
    hide TilesOk;
    Known(t, base, hdrs, x);
  }

  /** Two areas are large enough; the smaller one is in a lower bucket. */
  lemma SecondRequest(t: Tiles)
    requires Looks(t, 8192, H1())
    ensures Enabled(t, Carve(22544, 1032)) && Looks(Apply(t, Carve(22544, 1032)), 8192, H2())
    ensures OneServed(t, 1000, Carve(22544, 1032))
  {
    hide Looks, Enabled, Apply, Rounded;
    LooksCarve(t, 8192, H1(), 22544, 1032);
    assert H1()[22544 := Header(8200, false, 1032)][24568 := Header(23576, false, 0)]
        [23576 := Header(22544, true, 992)] == H2();
    SmallerPicked(t);
    SizesAsRounded();
    SizeKnown(t, 8192, H1(), 22544);
    OneWay(t, 1000, Carve(22544, 1032));
  }

  lemma SmallerPicked(t: Tiles)
    requires Looks(t, 8192, H1())
    ensures OnlyChoice(t, 1032, 22544)
  {
    hide TilesOk, Freeing, BucketFloor, Looks;
    Known(t, 8192, H1(), 22544);
    assert BucketFloor(47) == 2048 by { Floor2048(); }
    FloorBetween(2016, 4072, 47);
    forall x | CanServe(t, 1032, x) && x != 22544
      ensures Freeing(t.hdr[22544].size - 8) < Freeing(t.hdr[x].size - 8)
    {
      FreeKnown(t, 8192, H1(), x);
    }
  }

  lemma Floor2048()
    ensures BucketFloor(47) == 2048
  {
    SmallPowers();
  }

  lemma FirstReleased(t: Tiles)
    requires Looks(t, 8192, H2())
    ensures Enabled(t, Release(8200)) && Looks(Apply(t, Release(8200)), 8192, H3())
  {
    hide Looks, Enabled, Apply;
    assert H3() == (H2() - {})[8200 := Header(8192, true, 14344)][22544 := Header(8200, false, 1032)];
    LooksFree(t, 8192, H2(), 8200, H3());
  }

  lemma ThirdRequest(t: Tiles)
    requires Looks(t, 8192, H3())
    ensures Enabled(t, Carve(8200, 4104)) && Looks(Apply(t, Carve(8200, 4104)), 8192, H4())
    ensures OneServed(t, 4096, Carve(8200, 4104))
  {
    hide Looks, Enabled, Apply, Rounded;
    LooksCarve(t, 8192, H3(), 8200, 4104);
    assert H3()[8200 := Header(8192, false, 4104)][22544 := Header(12304, false, 1032)]
        [12304 := Header(8200, true, 10240)] == H4();
    OnlyOne(t, 8192, H3(), 4104, 8200);
    SizesAsRounded();
    SizeKnown(t, 8192, H3(), 8200);
    OneWay(t, 4096, Carve(8200, 4104));
  }

  lemma FourthRequest(t: Tiles)
    requires Looks(t, 8192, H4())
    ensures Enabled(t, Carve(12304, 4104)) && Looks(Apply(t, Carve(12304, 4104)), 8192, H5())
    ensures OneServed(t, 4096, Carve(12304, 4104))
  {
    hide Looks, Enabled, Apply, Rounded;
    LooksCarve(t, 8192, H4(), 12304, 4104);
    assert H4()[12304 := Header(8200, false, 4104)][22544 := Header(16408, false, 1032)]
        [16408 := Header(12304, true, 6136)] == H5();
    OnlyOne(t, 8192, H4(), 4104, 12304);
    SizesAsRounded();
    SizeKnown(t, 8192, H4(), 12304);
    OneWay(t, 4096, Carve(12304, 4104));
  }

  lemma SecondReleased(t: Tiles)
    requires Looks(t, 8192, H5())
    ensures Enabled(t, Release(8200)) && Looks(Apply(t, Release(8200)), 8192, H6())
  {
    hide Looks, Enabled, Apply;
    assert H6() == (H5() - {})[8200 := Header(8192, true, 4104)][12304 := Header(8200, false, 4104)];
    LooksFree(t, 8192, H5(), 8200, H6());
  }

  /** Exactly eight bytes are left over, and the new sentinel swallows them. */
  lemma FirstTrim(t: Tiles)
    requires Looks(t, 8192, H6())
    ensures Enabled(t, TrimStart(8200)) && Looks(Apply(t, TrimStart(8200)), 12288, H7())
    ensures NothingLeft(Apply(t, TrimStart(8200)))
  {
    hide TilesOk, AreaOk, SpanTiled, Adjacent, H6, H7, Looks;
    TrimsTo(t);
    TrimLeftKeeps(t, 8200, 12288);
    Trimmed(t);
    NoMoreFronts(TrimLeft(t, 8200, 12288));
  }

  lemma TrimsTo(t: Tiles)
    requires Looks(t, 8192, H6())
    ensures Visited(t, 8200) && AtLeftEnd(t, 8200) && !AtRightEnd(t, 8200) && NarrowSentinel(t, 8200)
    ensures 8 <= 8200 + t.hdr[8200].size && NewStart(8200 + t.hdr[8200].size) == 12288 && CanTrimLeft(t, 8200, 12288)
  {
    hide TilesOk, AreaOk, SpanTiled, Adjacent;
    Known(t, 8192, H6(), 8192);
    Known(t, 8192, H6(), 8200);
    Known(t, 8192, H6(), 12304);
    RoundDownUnique(12296, 12288);
  }

  lemma Trimmed(t: Tiles)
    requires Looks(t, 8192, H6()) && CanTrimLeft(t, 8200, 12288) && TilesOk(TrimLeft(t, 8200, 12288))
    ensures Looks(TrimLeft(t, 8200, 12288), 12288, H7())
  {
    hide TilesOk, AreaOk, SpanTiled, Adjacent;
    var t' := TrimLeft(t, 8200, 12288);
    Known(t, 8192, H6(), 8200);
    Known(t, 8192, H6(), 12304);
    Known(t, 8192, H6(), 16408);
    Known(t, 8192, H6(), 22544);
    Known(t, 8192, H6(), 23576);
    Known(t, 8192, H6(), 24568);
    hide Shows;
    assert t'.areas == AllAreas(H7());
    assert Shows(t', H7()) by { ShowsTrimmed(t, t'); }
  }

  lemma ShowsTrimmed(t: Tiles, t': Tiles)
    requires Shows(t, H6()) && 12304 in t.hdr
    requires t'.hdr == t.hdr[12288 := Header(0, false, 16)][12304 := t.hdr[12304].(left := 12288)]
    requires t'.spanOf == t.spanOf[12288 := 1]
    ensures Shows(t', H7())
  {
    forall x | x in H7()
      ensures 8192 <= x && x in t'.hdr && x in t'.spanOf && t'.hdr[x] == H7()[x] && t'.spanOf[x] == 1
    {
      if x != 12288 { assert H6()[x] == H6()[x]; }
    }
  }

  lemma NoMoreFronts(t: Tiles)
    requires Looks(t, 12288, H7())
    ensures NothingLeft(t)
  {
    hide TilesOk, AreaOk, SpanTiled, Looks;
    forall f | Trimmable(t, f)
      ensures t.hdr[f].size < 4104
    {
      FreeKnown(t, 12288, H7(), f);
      Known(t, 12288, H7(), 12304);
      Known(t, 12288, H7(), 22544);
    }
  }

  lemma ThirdReleased(t: Tiles)
    requires Looks(t, 12288, H7())
    ensures Enabled(t, Release(12304)) && Looks(Apply(t, Release(12304)), 12288, H8())
  {
    hide Looks, Enabled, Apply;
    assert H8() == (H7() - {16408})[12304 := Header(12288, true, 10240)][22544 := Header(12304, false, 1032)];
    LooksFree(t, 12288, H7(), 12304, H8());
  }

  /** The free area now follows a wide sentinel: the next cut leaves eight bytes that belong to no area. */
  lemma SecondTrim(t: Tiles)
    requires Looks(t, 12288, H8())
    ensures Enabled(t, TrimStart(12304)) && !Safe(t, TrimStart(12304))
  {
    hide TilesOk, AreaOk, SpanTiled, Adjacent;
    Known(t, 12288, H8(), 12288);
    Known(t, 12288, H8(), 12304);
    Known(t, 12288, H8(), 22544);
    RoundDownUnique(22536, 20480);
    assert CanTrimLeft(t, 12304, 20480);
  }

  // ----- the sequence of calls -----

  /**
   Initialization, requests for 14336 and 1000 bytes, a release, two requests for 4096 bytes, and two times a release
   and a trim.
   */
  ghost function TenCalls(): seq<Call> {
    [Init, Alloc(14336), Alloc(1000), Free(8200), Alloc(4096), Alloc(4096), Free(8200), Trim, Free(12304), Trim]
  }

  ghost function TenPaths(): seq<seq<Step>> {
    [[Grow(0, 4096, 4096, true)], [Grow(1, 8192, 16384, true), Carve(8200, 14344)], [Carve(22544, 1032)],
     [Release(8200)], [Carve(8200, 4104)], [Carve(12304, 4104)], [Release(8200)], [TrimStart(8200)],
     [Release(12304)], [TrimStart(12304)]]
  }

  /** The request is met by this step and cannot be met by any other. */
  ghost predicate OneServed(t: Tiles, request: nat, s: Step) {
    Allocates(t, request, [s]) && forall path :: Allocates(t, request, path) ==> path == [s]
  }

  lemma OneServedRan(t: Tiles, request: nat, s: Step)
    requires OneServed(t, request, s) && Enabled(t, s)
    ensures Ran(t, Alloc(request), [s], Apply(t, s))
  {
    hide Enabled, Apply, Allocates;
    SingleStep(t, s);
  }

  /** Call n of the sequence leads from one heap to the next. */
  ghost predicate Next(states: seq<Tiles>, first: nat, n: nat) {
    && n + 1 < |states| && first + n < 10
    && Ran(states[n], TenCalls()[first + n], TenPaths()[first + n], states[n + 1])
  }

  lemma FirstHalf(t: Tiles) returns (states: seq<Tiles>)
    requires Looks(t, 8192, H1())
    ensures |states| == 6 && states[0] == t && (forall n :: 0 <= n < 5 ==> Next(states, 2, n))
    ensures Looks(states[5], 8192, H6())
    ensures OneServed(states[0], 1000, Carve(22544, 1032)) && OneServed(states[2], 4096, Carve(8200, 4104))
    ensures OneServed(states[3], 4096, Carve(12304, 4104))
  {
    hide Looks, Enabled, Apply, Ran, H1, H2, H3, H4, H5, H6, OneServed;
    SecondRequest(t);
    OneServedRan(t, 1000, Carve(22544, 1032));
    var t2 := Apply(t, Carve(22544, 1032));
    FirstReleased(t2);
    FreeServed(t2, 8200, Apply(t2, Release(8200)));
    var t3 := Apply(t2, Release(8200));
    ThirdRequest(t3);
    OneServedRan(t3, 4096, Carve(8200, 4104));
    var t4 := Apply(t3, Carve(8200, 4104));
    FourthRequest(t4);
    OneServedRan(t4, 4096, Carve(12304, 4104));
    var t5 := Apply(t4, Carve(12304, 4104));
    SecondReleased(t5);
    FreeServed(t5, 8200, Apply(t5, Release(8200)));
    states := [t, t2, t3, t4, t5, Apply(t5, Release(8200))];
    assert Next(states, 2, 0) && Next(states, 2, 1) && Next(states, 2, 2) && Next(states, 2, 3) && Next(states, 2, 4);
  }

  lemma SecondHalf(t: Tiles) returns (states: seq<Tiles>)
    requires Looks(t, 8192, H6())
    ensures |states| == 4 && states[0] == t && (forall n :: 0 <= n < 3 ==> Next(states, 7, n))
    ensures TilesOk(states[2]) && !TrimSafe(states[2]) && !TilesOk(states[3])
  {
    hide Looks, Enabled, Apply, Legal, After, H6, H7, H8, TilesOk, TrimSafe, Safe, NothingLeft;
    FirstTrim(t);
    SingleStep(t, TrimStart(8200));
    var t7 := Apply(t, TrimStart(8200));
    TrimServed(t, [TrimStart(8200)], t7);
    ThirdReleased(t7);
    FreeServed(t7, 12304, Apply(t7, Release(12304)));
    var t8 := Apply(t7, Release(12304));
    SecondTrim(t8);
    SingleStep(t8, TrimStart(12304));
    var t9 := Apply(t8, TrimStart(12304));
    StepExact(t8, TrimStart(12304));
    EnabledTiled(t8, TrimStart(12304));
    NoSteps(t8);
    assert ButLast([TrimStart(12304)]) == [] && Last([TrimStart(12304)]) == TrimStart(12304);
    UnsafeTrim(t8, TrimStart(12304));
    states := [t, t7, t8, t9];
    assert Next(states, 7, 0) && Next(states, 7, 1) && Next(states, 7, 2);
  }

  lemma UnsafeTrim(t: Tiles, s: Step)
    requires Enabled(t, s) && !Safe(t, s)
    ensures !TrimSafe(t)
  {
    hide TilesOk, AtLeftEnd, AtRightEnd, CanTrimLeft;
  }

  /**
   Ten calls, starting with initialization, that break the heap; the last of them is the first trim that is not safe.
   Each request is met from the only area that the buckets offer.
   */
  lemma WideSentinelExample() returns (states: seq<Tiles>)
    ensures Calls(states, TenCalls(), TenPaths()) && TilesOk(states[9]) && !TrimSafe(states[9]) && !TilesOk(states[10])
    ensures OneServed(states[2], 1000, Carve(22544, 1032)) && OneServed(states[4], 4096, Carve(8200, 4104))
    ensures OneServed(states[5], 4096, Carve(12304, 4104))
  {
    hide Looks, Enabled, Apply, Ran, H1, H6, TilesOk, TrimSafe, OneServed, PageHeap;
    FirstGrowth();
    InitServed(EmptyHeap(), Grow(0, 4096, 4096, true), PageHeap());
    var t := FirstRequest();
    var first := FirstHalf(t);
    var second := SecondHalf(first[5]);
    states := [EmptyHeap(), PageHeap()] + first + second[1..];
    assert Next(states, 0, 0) && Next(states, 0, 1);
    forall n | 2 <= n < 7
      ensures Next(states, 0, n)
    {
      assert Next(first, 2, n - 2);
    }
    forall n | 7 <= n < 10
      ensures Next(states, 0, n)
    {
      assert Next(second, 7, n - 7);
    }
    AllCalls(states);
  }

  lemma AllCalls(states: seq<Tiles>)
    requires |states| == 11 && states[0] == EmptyHeap() && forall n :: 0 <= n < 10 ==> Next(states, 0, n)
    ensures Calls(states, TenCalls(), TenPaths())
  {
    hide Legal, After, EmptyHeap, Allocates, Aligns, TrimPass;
    forall n | 0 <= n < 10
      ensures Does(states[n], TenCalls()[n], TenPaths()[n]) && states[n + 1] == After(states[n], TenPaths()[n])
    {
      assert Next(states, 0, n);
    }
  }
}
