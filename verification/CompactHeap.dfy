/** The compact allocator: segregated free lists over spans of pages, with coalescing and return of pages. */
module CompactHeap {
  import opened AreaMaps
  import opened Bits
  import opened BucketBits
  import opened Chains
  import opened Coalescing
  import opened FreeLists
  import opened HeapSteps
  import opened HeapTotals
  import opened Numbers
  import opened Pages
  import opened Requests
  import Runs = HeapRuns
  import opened SizeClasses
  import opened Spans
  import opened Tiling
  import opened Totals
  import opened Trimming

  /** The pages of every span are taken from the page allocator. */
  ghost predicate SpansIn(spans: map<nat, Span>, taken: set<nat>) {
    forall i {:trigger SpanPages(spans[i])} :: i in spans ==> SpanPages(spans[i]) <= taken
  }

  ghost function SpanPages(sp: Span): set<nat> {
    PageRange(sp.base / 4096, sp.length / 4096)
  }

  /** The pages of all spans. */
  ghost function OwnPages(spans: map<nat, Span>): set<nat> {
    set i, p | i in spans && p in SpanPages(spans[i]) :: p
  }

  class Heap {
    var size: nat
    var remaining: nat
    const lists: array<nat>
    const bits: array<bv32>
    var hdr: map<nat, Header>
    var link: map<nat, Link>
    const pages: Arena
    /** Where the current areas are, which spans they tile, and in which order the free lists chain them. */
    ghost var areas: set<nat>
    ghost var spanOf: map<nat, nat>
    ghost var spans: map<nat, Span>
    ghost var nextSpan: nat
    ghost var chains: seq<seq<nat>>
    /** The areas on the free lists and their sizes. */
    ghost var filed: map<nat, nat>

    ghost function Tiled(): Tiles
      reads this`hdr, this`areas, this`spanOf, this`spans
    {
      Tiles(hdr, areas, spanOf, spans)
    }

    /** The blocks in callers' hands: address of the header and size with header. */
    ghost function Used(): map<nat, nat>
      reads this`hdr, this`areas, this`spanOf, this`spans
    {
      UsedAreas(Tiled())
    }

    /** Heads, bitmap, links and counter describe the filed areas. */
    ghost predicate Listed()
      reads this`remaining, this`link, this`chains, this`filed, lists, bits
    {
      && lists.Length == 136 && bits.Length == 5
      && ListsOk(lists[..], bits[..], link, chains, filed)
      && remaining == Total(filed)
    }

    /** The spans are made of taken pages, and `size` counts their bytes. */
    ghost predicate Backed()
      requires pages.Valid()
      reads this`size, this`spans, this`nextSpan, pages, pages.map_
    {
      && size == Total(SpanLengths(spans))
      && SpansIn(spans, pages.Taken())
      && (forall i :: i in spans ==> i < nextSpan)
    }

    /** The taken pages that belong to no span: those of the page allocator's other clients. */
    ghost function PagesOfOthers(): (others: set<nat>)
      requires pages.Valid()
      reads this`spans, pages, pages.map_
      ensures others <= pages.Taken()
    {
      pages.Taken() - OwnPages(spans)
    }

    /** The page allocator is sound, and the arrays are different objects. */
    ghost predicate Separate()
      reads pages
    {
      pages.Valid() && lists != pages.map_ && bits as object != pages.map_
    }

    ghost predicate Valid()
      reads this, lists, bits, pages, pages.map_
    {
      Separate() && Backed() && Listed() && TilesOk(Tiled()) && filed == FreeAreas(Tiled())
    }

    /** An allocator without memory. */
    constructor (pages: Arena)
      requires pages.Valid()
      ensures Valid() && this.pages == pages && Tiled() == Runs.EmptyHeap() && NarrowSentinels(Tiled())
      ensures size == remaining == 0 && filed == map[] && fresh(lists) && fresh(bits)
    {
      this.pages := pages;
      lists := new nat[136](_ => 0);
      bits := new bv32[5](_ => 0);
      size, remaining, nextSpan := 0, 0, 0;
      hdr, link, filed, spanOf, spans := map[], map[], map[], map[], map[];
      areas := {};
      chains := seq(136, _ => []);
      new;
      NoSpans(Tiled());
      EmptyLists(lists[..], bits[..], chains);
    }

    /** Ask for the first page; the allocator starts without one if there is none. */
    method FirstGrowth() returns (ghost path: seq<Step>)
      requires Valid() && filed == map[]
      modifies this, lists, bits, pages.map_
      ensures Valid() && Used() == old(Used()) && PagesOfOthers() == old(PagesOfOthers())
      ensures Runs.Ran(old(Tiled()), Runs.Init, path, Tiled())
      ensures old(NarrowSentinels(Tiled())) ==> NarrowSentinels(Tiled())
      ensures if HasRun(old(pages.map_[..]), 1) then size == old(size) + 4096 && remaining == 4080
                else size == old(size) && filed == map[]
    {
      hide ListsOk, TilesOk, AddSpan, CanAdd, Total, SpanLengths, FreeAreas, UsedAreas, SpanPages, HasRun, Arena.Taken,
           Heap.Backed, Runs.Ran, Steps, NarrowSentinels, Heap.PagesOfOthers;
      ghost var t, i := Tiled(), nextSpan;
      path := [];
      Runs.NothingServed(t);
      var grown, at := HeapGrow(4080, false);
      if grown != -1 {
        path := [Grow(i, at - 8, grown, true)];
        GrowStep(t, i, at - 8, grown, true);
        Runs.InitServed(t, Grow(i, at - 8, grown, true), Tiled());
        AddSpanFreeArea(t, i, at - 8, grown);
        TotalAdd(map[], at, grown - 16);
        EmptyTotal();
      }
      KeepsNarrow(t, Runs.Init, path, Tiled());
    }

    /** Every byte of the heap is in a free area, in a block in use or in a sentinel. */
    lemma EveryByteCounts()
      requires Valid()
      ensures size == remaining + Total(Used()) + Total(Sentinels(Tiled()))
    {
      hide ListsOk, Total, SpansIn, FreeAreas, UsedAreas, HeapTotals.Sentinels, Arena.Taken, Arena.Valid;
      SpansHoldTheirAreas(Tiled());
    }

    /** A block in use lies between the sentinels of a span made of pages that the page allocator has handed out. */
    lemma BlockBacked(a: nat)
      requires Valid() && a in Used()
      ensures a in spanOf && spanOf[a] in spans && spans[spanOf[a]].base + 8 <= a
      ensures a + Used()[a] <= spans[spanOf[a]].Top()
      ensures SpanPages(spans[spanOf[a]]) <= pages.Taken()
    {
      hide TilesOk, UsedAreas, SpanOk, SpanPages, Arena.Taken, Arena.Valid, Heap.Listed;
      BlockSpan(Tiled(), a);
      PagesOf(spans, pages.Taken(), spanOf[a]);
    }

    /** Blocks in use are aligned and do not overlap. */
    lemma BlocksApart(a: nat, b: nat)
      requires Valid() && a in Used() && b in Used() && a < b
      ensures a % 8 == 0 && b % 8 == 0 && 16 <= Used()[a] && a + Used()[a] <= b
    {
      hide ListsOk, Total, SpansIn, Arena.Taken, Arena.Valid;
      Blocks(Tiled(), a);
      Blocks(Tiled(), b);
      AreasDisjoint(Tiled(), a, b);
    }

    // ----- the free lists -----

    /** Take a free area out of its list. */
    method UnlinkFree(a: nat, bucket: nat, ghost k: nat)
      requires Listed() && bucket < 136 && k < |chains[bucket]| && chains[bucket][k] == a
      requires a in hdr && a in filed && hdr[a].size == filed[a]
      modifies this`remaining, this`link, this`chains, this`filed, lists, bits
      ensures Listed() && filed == old(filed) - {a}
      ensures Dropped(old(chains), chains, bucket, k)
    {
      hide ListsOk, Has, ClearOne, UnlinkLinks;
      ghost var heads, words := lists[..], bits[..];
      ListsLength(heads, words, link, chains, filed);
      TotalRemove(filed, a);
      UnlinkOk(heads, words, link, chains, filed, bucket, k, a);
      remaining := remaining - hdr[a].size;
      var next := link[a].next;
      if lists[bucket] == a {
        lists[bucket] := next;
        if next == 0 {
          bits[bucket / 32] := ClearOne(bits[bucket / 32], 31 - bucket % 32);
        }
      }
      link := UnlinkLinks(link, a);
      chains := chains[bucket := Without(chains[bucket], k)];
      filed := filed - {a};
      assert lists[..] == UnlinkHeads(heads, bucket, a, next);
      assert bits[..] == UnlinkBits(heads, words, bucket, a, next);
    }

    method UnlinkFreeUnknownBucket(a: nat)
      requires Listed() && a in hdr && a in filed && hdr[a].size == filed[a]
      modifies this`remaining, this`link, this`chains, this`filed, lists, bits
      ensures Listed() && filed == old(filed) - {a}
    {
      hide ListsOk, Freeing;
      ghost var k := FiledAt(lists[..], bits[..], link, chains, filed, a);
      UnlinkFree(a, Freeing(hdr[a].size - 8), k);
    }

    /** Write the header of a free area and put it at the head of its list. */
    method CreateFreeArea(address: nat, left: nat, size: nat)
      requires Listed() && address != 0 && address !in filed && 16 <= size < 4718600
      modifies this`remaining, this`hdr, this`link, this`chains, this`filed, lists, bits
      ensures Listed() && filed == old(filed)[address := size]
      ensures hdr == old(hdr)[address := Header(left, true, size)]
      ensures Pushed(old(chains), chains, Freeing(size - 8), address)
    {
      hide ListsOk, Has, SetOne, PushLinks, Freeing;
      ghost var heads, words := lists[..], bits[..];
      ListsLength(heads, words, link, chains, filed);
      hdr := hdr[address := Header(left, true, size)];
      BucketExists(size - 8);
      var index := Freeing(size - 8);
      PushOk(heads, words, link, chains, filed, address, size, index);
      bits[index / 32] := SetOne(bits[index / 32], 31 - index % 32);
      link := PushLinks(link, lists[index], address);
      lists[index] := address;
      remaining := remaining + size;
      TotalAdd(filed, address, size);
      chains := chains[index := [address] + chains[index]];
      filed := filed[address := size];
      assert lists[..] == heads[index := address];
      assert bits[..] == SetFreeListBit(words, index);
    }

    // ----- growing -----

    method FixLeftPointer(right: nat, left: nat)
      requires right in hdr
      modifies this`hdr
      ensures hdr == old(hdr)[right := old(hdr)[right].(left := left)]
    {
      hdr := hdr[right := hdr[right].(left := left)];
    }

    method CreateAllocationHeader(address: nat, offset: nat, size: nat, left: nat) returns (payload: nat)
      modifies this`hdr
      ensures hdr == old(hdr)[address + offset := Header(left, false, size)] && payload == address + offset + 8
    {
      hdr := hdr[address + offset := Header(left, false, size)];
      payload := address + offset + 8;
    }

    /**
     Lay out new pages as a sentinel, a free area and a sentinel. The free area is filed unless the caller keeps it.
     */
    method AddToHeap(area: nat, len: nat, keep: bool)
      requires Listed() && 0 < area && 4096 <= len && area + 8 !in filed && (!keep ==> len <= MAX_SPAN)
      modifies this`remaining, this`hdr, this`link, this`chains, this`filed, lists, bits
      ensures hdr == old(hdr)[area := Header(0, false, 8)][area + 8 := Header(area, true, len - 16)]
                [area + len - 8 := Header(area + 8, false, 0)]
      ensures !keep ==> Listed() && filed == old(filed)[area + 8 := len - 16]
      ensures keep ==>
                && remaining == old(remaining) + len - 16 && filed == old(filed) && link == old(link)
                && chains == old(chains)
                       && lists[..] == old(lists[..]) && bits[..] == old(bits[..])
    {
      hide ListsOk;
      var _ := CreateAllocationHeader(area, 0, 8, 0);
      if keep {
        hdr := hdr[area + 8 := Header(area, true, len - 16)];
        remaining := remaining + (len - 16);
      } else {
        CreateFreeArea(area + 8, area, len - 16);
      }
      var _ := CreateAllocationHeader(area + len - 8, 0, 0, area + 8);
    }

    method TakePages(len: nat, keep: bool) returns (ptr: nat)
      requires Valid() && len % 4096 == 0 && 4096 <= len && (!keep ==> len <= MAX_SPAN)
      modifies pages.map_
      ensures pages.Valid() && Listed() && pages.map_ == old(pages.map_)
      ensures ptr == 0 <==> !HasRun(old(pages.map_[..]), len / 4096)
      ensures ptr == 0 ==> Valid() && pages.map_[..] == old(pages.map_[..]) && pages.Taken() == old(pages.Taken())
      ensures ptr != 0 ==>
                && CanAdd(Tiled(), nextSpan, ptr, len, !keep) && ptr + 8 !in filed
                && SpansIn(spans[nextSpan := Span(ptr, len)], pages.Taken())
                && SpanPages(Span(ptr, len)) !! old(pages.Taken())
                && pages.Taken() == old(pages.Taken()) + SpanPages(Span(ptr, len))
    {
      hide ListsOk, TilesOk, FreeRun, Total, PageRange, CanAdd, SpansIn;
      ghost var taken, heads, words := pages.Taken(), lists[..], bits[..];
      ptr := pages.AllocatePages(len / 4096);
      assert lists[..] == heads && bits[..] == words;
      if ptr != 0 {
        FreshSpan(Tiled(), nextSpan, taken, Span(ptr, len), !keep);
      } else {
        assert pages.Taken() == taken;
      }
    }

    /** Record a span whose sentinels have just been written. */
    ghost method Register(t: Tiles, ptr: nat, len: nat)
      requires pages.Valid()
      requires t.areas == areas && t.spanOf == spanOf && t.spans == spans && 32 <= len
      requires size == Total(SpanLengths(t.spans)) + len
      requires hdr == t.hdr[ptr := Header(0, false, 8)][ptr + 8 := Header(ptr, true, len - 16)]
                 [ptr + len - 8 := Header(ptr + 8, false, 0)]
      requires SpansIn(spans[nextSpan := Span(ptr, len)], pages.Taken()) && forall i :: i in spans ==> i < nextSpan
      modifies this`areas, this`spanOf, this`spans, this`nextSpan
      ensures Backed() && Tiled() == AddSpan(t, old(nextSpan), ptr, len, true)
      ensures spans == t.spans[old(nextSpan) := Span(ptr, len)]
    {
      hide SpansIn, Arena.Taken, Arena.Valid, Total, AddSpan;
      AddedParts(t, nextSpan, ptr, len);
      ghost var t' := AddSpan(t, nextSpan, ptr, len, true);
      areas, spanOf, spans := t'.areas, t'.spanOf, t'.spans;
      nextSpan := nextSpan + 1;
    }

    /**
     Get pages for a free area of at least `request` bytes. Fails only when the page allocator has no run of
     that many pages, and then changes nothing.
     */
    method HeapGrow(request: nat, keep: bool) returns (grown: int, at: nat)
      requires Valid() && (!keep ==> GrowthFor(request) <= MAX_SPAN)
      modifies this, lists, bits, pages.map_
      ensures Separate() && Backed() && (grown == -1 || grown == GrowthFor(request))
      ensures PagesOfOthers() == old(PagesOfOthers())
      ensures grown == -1 <==> !HasRun(old(pages.map_[..]), GrowthFor(request) / 4096)
      ensures grown == -1 ==>
                && Valid() && Tiled() == old(Tiled()) && filed == old(filed) && size == old(size)
                && pages.map_[..] == old(pages.map_[..])
      ensures grown != -1 ==>
                && 4096 <= grown && 8 < at
                && CanAdd(old(Tiled()), old(nextSpan), at - 8, grown, !keep)
                && Tiled() == AddSpan(old(Tiled()), old(nextSpan), at - 8, grown, true)
                && size == old(size) + grown
                && pages.Taken() == old(pages.Taken()) + SpanPages(Span(at - 8, grown))
      ensures (grown == -1 || !keep) && old(NarrowSentinels(Tiled())) ==> NarrowSentinels(Tiled())
      ensures grown != -1 && !keep ==> Listed() && at !in old(filed) && filed == old(filed)[at := grown - 16]
      ensures grown != -1 && keep ==>
                && filed == old(filed) && link == old(link) && chains == old(chains) && lists[..] == old(lists[..])
                && bits[..] == old(bits[..])
                && remaining == old(remaining) + grown - 16
    {
      hide ListsOk, TilesOk, HasRun, Total, PageRange, FreeAreas, Arena.Taken, Arena.Owned, CanAdd, SpansIn, RoundUp,
           AddSpan, SpanLengths, SpanPages, NarrowSentinels, Heap.Listed, Arena.Valid;
      var len := GrowthFor(request);
      ghost var t, i, taken := Tiled(), nextSpan, pages.Taken();
      var ptr := TakePages(len, keep);
      if ptr == 0 {
        return -1, 0;
      }
      ghost var sp := Span(ptr, len);
      size := size + len;
      AddToHeap(ptr, len, keep);
      Register(t, ptr, len);
      OwnMore(t.spans, taken, i, sp);
      grown, at := len, ptr + 8;
      if !keep { GrowNarrow(t, i, ptr, len); }
    }

    // ----- allocating -----

    /** Take a free area off its list, file its last bytes and mark its first m bytes as a block. */
    method CarveHeaders(head: nat, m: nat, bucket: nat, ghost k: nat) returns (payload: nat)
      requires bucket < 136 && |chains| == 136 && k < |chains[bucket]| && chains[bucket][k] == head && head in filed
      requires head in hdr
      requires hdr[head].size == filed[head] <= MAX_SPAN && 16 <= m && m + 16 <= filed[head]
      requires head + m !in filed && head + filed[head] in hdr && Listed()
      modifies this`remaining, this`hdr, this`link, this`chains, this`filed, lists, bits
      ensures filed == (old(filed) - {head})[head + m := old(filed[head]) - m] && payload == head + 8
      ensures Listed()
      ensures hdr == Carved(old(hdr), head, m)
    {
      hide ListsOk, Freeing, Dropped, Pushed, Heap.Listed;
      var leftOver, right := hdr[head].size - m, head + hdr[head].size;
      UnlinkFree(head, bucket, k);
      var free := head + m;
      CreateFreeArea(free, head, leftOver);
      FixLeftPointer(right, free);
      hdr := hdr[head := hdr[head].(size := hdr[head].size - leftOver)];
      payload := CreateAllocationHeader(head, 0, hdr[head].size, hdr[head].left);
    }

    /** Turn the first m bytes of a free area into a block and file the rest. */
    method SplitOff(head: nat, m: nat, bucket: nat, ghost k: nat) returns (payload: nat)
      requires Valid() && bucket < 136 && |chains| == 136 && k < |chains[bucket]| && chains[bucket][k] == head
      requires head in filed
      requires 16 <= m && m + 16 <= filed[head] && m % 8 == 0
      modifies this, lists, bits
      ensures Valid() && spans == old(spans) && size == old(size)
      ensures payload == head + 8 && head !in old(Used()) && Used() == old(Used())[head := m]
      ensures InSmallSpan(Tiled(), head)
      ensures Steps(old(Tiled()), Step.Carve(head, m), Tiled())
    {
      hide ListsOk, TilesOk, Total, FreeAreas, UsedAreas, SpansIn, SpanLengths, CanSplit, Split, Carved, Freeing,
           Dropped, Pushed, Steps, Heap.Listed, Heap.Backed, Heap.PagesOfOthers;
      ghost var t := Tiled();
      FiledHeader(t, head);
      CarveOk(t, head, m);
      CarveStep(t, head, m);
      payload := CarveHeaders(head, m, bucket, k);
      SplitHeaders(t, head, m);
      ghost var t' := Split(t, head, m, true);
      areas, spanOf := t'.areas, t'.spanOf;
      assert Tiled() == t';
    }

    /** Turn a free area into a block as it is. */
    method TakeWhole(head: nat, bucket: nat, ghost k: nat) returns (payload: nat)
      requires Valid() && bucket < 136 && |chains| == 136 && k < |chains[bucket]| && chains[bucket][k] == head
      requires head in filed
      modifies this, lists, bits
      ensures Valid() && spans == old(spans) && size == old(size)
      ensures payload == head + 8 && head !in old(Used()) && Used() == old(Used())[head := old(filed[head])]
      ensures InSmallSpan(Tiled(), head)
      ensures Steps(old(Tiled()), Step.TakeWhole(head), Tiled())
    {
      hide ListsOk, TilesOk, Total, FreeAreas, UsedAreas, SpansIn, SpanLengths, Dropped, Steps, Heap.Listed,
           Heap.Backed, Heap.PagesOfOthers;
      ghost var t := Tiled();
      FiledHeader(t, head);
      TakeOk(t, head);
      UnlinkFree(head, bucket, k);
      payload := CreateAllocationHeader(head, 0, hdr[head].size, hdr[head].left);
      assert Tiled() == Take(t, head);
      TakeStep(t, head);
    }

    /** Make a block of at least `rounded` bytes out of the first free area of a bucket. */
    method Carve(request: nat, rounded: nat, bucket: nat) returns (payload: nat, ghost step: Step)
      requires Valid() && bucket < 136 && lists[bucket] in chains[bucket] && lists[bucket] in filed
      requires rounded <= filed[lists[bucket]] && 16 <= rounded && rounded % 8 == 0
      modifies this, lists, bits
      ensures Valid() && spans == old(spans) && size == old(size)
      ensures 8 < payload && payload % 8 == 0 && payload - 8 in old(filed) && payload - 8 !in old(Used())
      ensures payload - 8 in Used() && Used() == old(Used())[payload - 8 := Used()[payload - 8]]
      ensures InSmallSpan(Tiled(), payload - 8)
      ensures rounded <= Used()[payload - 8]
      ensures Used()[payload - 8] < rounded + 16 || Used()[payload - 8] <= rounded + request / 64
      ensures Steps(old(Tiled()), step, Tiled()) && payload - 8 == old(lists[bucket]) && payload - 8 in old(hdr)
      ensures var a := payload - 8;
              var leftOver := old(hdr)[a].size - rounded;
              step == if leftOver >= 16 && leftOver > request / 64 then Step.Carve(a, rounded) else Step.TakeWhole(a)
    {
      hide ListsOk, TilesOk, Total, FreeAreas, UsedAreas, SpansIn, SpanLengths, Steps, Heap.Backed, Heap.PagesOfOthers;
      var head := lists[bucket];
      FiledHeader(Tiled(), head);
      ListsLength(lists[..], bits[..], link, chains, filed);
      var leftOver := hdr[head].size - rounded;
      ghost var k :| 0 <= k < |chains[bucket]| && chains[bucket][k] == head;
      if leftOver >= 16 && leftOver > request / 64 {
        payload := SplitOff(head, rounded, bucket, k);
        step := Step.Carve(head, rounded);
      } else {
        payload := TakeWhole(head, bucket, k);
        step := Step.TakeWhole(head);
      }
    }

    /** A request too large for the buckets gets pages of its own. */
    method LargeAlloc(request: nat) returns (payload: nat, ghost step: Step)
      requires Valid()
      modifies this, lists, bits, pages.map_
      ensures Valid() && PagesOfOthers() == old(PagesOfOthers())
      ensures payload == 0 <==> !HasRun(old(pages.map_[..]), GrowthFor(RoundUp8(request)) / 4096)
      ensures payload == 0 ==>
                && Tiled() == old(Tiled()) && Used() == old(Used()) && filed == old(filed) && size == old(size)
                && pages.map_[..] == old(pages.map_[..])
      ensures payload != 0 ==>
                && payload % 8 == 0 && 8 < payload && payload - 8 !in old(Used())
                && Used() == old(Used())[payload - 8 := GrowthFor(RoundUp8(request)) - 16]
                && size == old(size) + GrowthFor(RoundUp8(request))
      ensures payload != 0 ==>
                && Steps(old(Tiled()), step, Tiled())
                && step.Grow? && !step.free && step.length == GrowthFor(RoundUp8(request))
    {
      hide ListsOk, TilesOk, HasRun, Total, FreeAreas, UsedAreas, SpansIn, SpanLengths, AddSpan, CanAdd, RoundUp,
           RoundUp8, GrowthFor, Steps, Heap.Backed, Heap.PagesOfOthers, SpanPages, NarrowSentinels;
      ghost var t, i := Tiled(), nextSpan;
      step := Step.Release(0);
      var grown, at := HeapGrow(RoundUp8(request), true);
      if grown < 0 {
        return 0, step;
      }
      ghost var free := Tiled();
      AddSpanBlock(t, i, at - 8, grown);
      payload := CreateAllocationHeader(at, 0, hdr[at].size, hdr[at].left);
      remaining := remaining - hdr[at].size;
      assert Tiled() == free.(hdr := hdr);
      assert Tiled() == AddSpan(t, i, at - 8, grown, false);
      GrowStep(t, i, at - 8, grown, false);
      step := Grow(i, at - 8, grown, false);
    }

    /** Get a free area of at least `rounded` bytes, asking for more when possible and for less when not. */
    method GrowFor(rounded: nat) returns (ok: bool, ghost at: nat, ghost step: Step)
      requires Valid() && 16 <= rounded <= 4194312
      modifies this, lists, bits, pages.map_
      ensures Valid() && Used() == old(Used()) && PagesOfOthers() == old(PagesOfOthers())
      ensures ok <==> HasRun(old(pages.map_[..]), GrowthFor(rounded) / 4096)
      ensures ok ==> at in filed && rounded <= filed[at]
      ensures ok ==> old(size) <= size && GrownBy(old(pages.map_[..]), old(size), rounded, size - old(size))
      ensures 4096 <= old(size) / 8 <= 4194304 && rounded <= old(size) / 8
              && HasRun(old(pages.map_[..]), RoundUp(old(size) / 8 + 16) / 4096) ==>
                ok && size == old(size) + RoundUp(old(size) / 8 + 16)
      ensures !ok ==>
                && Tiled() == old(Tiled()) && filed == old(filed) && size == old(size)
                && pages.map_[..] == old(pages.map_[..])
      ensures ok ==>
                && Steps(old(Tiled()), step, Tiled()) && step.Grow? && step.free
                && step.length == size - old(size)
    {
      hide ListsOk, TilesOk, HasRun, Total, FreeAreas, UsedAreas, SpansIn, SpanLengths, AddSpan, CanAdd, RoundUp, Steps,
           Heap.Backed, Heap.Listed, Heap.PagesOfOthers, SpanPages, NarrowSentinels;
      ghost var t, map0, k := Tiled(), pages.map_[..], 0;
      var growby := FirstTry(size, rounded);
      FirstInHand(size, rounded);
      at, step := 0, Step.Release(0);
      while true
        invariant Valid() && Tiled() == t && filed == old(filed) && size == old(size) && pages.map_[..] == map0
        invariant PagesOfOthers() == old(PagesOfOthers())
        invariant (growby == 4194304 || rounded <= growby) && growby <= 4194304
        invariant InHand(old(size), rounded, k, growby)
        invariant forall j: nat :: j < k ==> !HasRun(map0, Tried(old(size), rounded, j) / 4096)
        decreases growby
      {
        GrowthOf(growby, rounded);
        InHandTried(old(size), rounded, k, growby);
        ghost var id := nextSpan;
        var grown, area := HeapGrow(growby, false);
        if grown >= 0 {
          at := area;
          AddSpanFreeArea(t, id, area - 8, grown);
          ShorterRun(map0, grown / 4096, GrowthFor(rounded) / 4096);
          GrowStep(t, id, area - 8, grown, true);
          GrowsByAnEighth(map0, old(size), rounded, grown);
          return true, at, Grow(id, area - 8, grown, true);
        }
        if growby <= rounded {
          NoRunForAnEighth(map0, old(size), rounded);
          return false, at, step;
        }
        NextInHand(old(size), rounded, k, growby);
        k := k + 1;
        growby := Max(growby / 2, rounded);
      }
    }

    /** Is some free area large enough for the request? */
    ghost predicate HasArea(request: nat)
      requires 0 < request
      reads this`filed
    {
      exists a :: a in filed && Rounded(request) <= filed[a]
    }

    /** Can a request be met from the free areas or from the pages that are left? */
    ghost predicate CanAllocate(request: nat)
      reads this`filed, pages, pages.map_
    {
      && 0 < request
      && if request + 8 > 4194304 then
           HasRun(pages.map_[..], GrowthFor(RoundUp8(request)) / 4096)
         else
           || HasArea(request)
           || HasRun(pages.map_[..], GrowthFor(Rounded(request)) / 4096)
    }

    lemma SizeOfSpans()
      requires Valid()
      ensures size == Total(SpanLengths(spans))
    {
    }

    /** Find the first bucket with areas for a request, growing the heap if there is none. */
    method FindBucket(request: nat) returns (bucket: int, ghost grow: Step)
      requires Valid() && Bucketed(request)
      modifies this, lists, bits, pages.map_
      ensures Valid() && Used() == old(Used()) && PagesOfOthers() == old(PagesOfOthers())
      ensures bucket != -1 <==> old(CanAllocate(request))
      ensures bucket != -1 ==>
                if old(HasArea(request)) then size == old(size)
                else old(size) <= size && GrownBy(old(pages.map_[..]), old(size), Rounded(request), size - old(size))
      ensures 4096 <= old(size) / 8 <= 4194304 && Rounded(request) <= old(size) / 8 && !old(HasArea(request))
              && HasRun(old(pages.map_[..]), RoundUp(old(size) / 8 + 16) / 4096) ==>
                bucket != -1 && size == old(size) + RoundUp(old(size) / 8 + 16)
      ensures bucket == -1 ==>
                && Tiled() == old(Tiled()) && filed == old(filed) && size == old(size)
                && pages.map_[..] == old(pages.map_[..])
                && (forall x {:trigger CanServe(Tiled(), Rounded(request), x)} ::
                       !CanServe(Tiled(), Rounded(request), x))
      ensures bucket != -1 ==>
                && 0 <= bucket < 136 && lists[bucket] in chains[bucket] && lists[bucket] in filed
                && Rounded(request) <= filed[lists[bucket]]
                && Picked(Tiled(), Rounded(request), lists[bucket])
                && if grow.Grow? then Steps(old(Tiled()), grow, Tiled())
                       && GrowsFor(old(Tiled()), Rounded(request), grow) else Tiled() == old(Tiled())
    {
      hide ListsOk, TilesOk, HasRun, Total, FreeAreas, UsedAreas, SpansIn, SpanLengths, GrowthFor, RoundUp, Allocating,
           Has, Steps, Picked, CanServe, Heap.Backed, Heap.PagesOfOthers, Tried, SpanPages, Arena.Taken, Arena.Valid;
      ghost var t := Tiled();
      grow := Step.Release(0);
      RequestRounded(request);
      var start, rounded := Allocating(request).index, Allocating(request).rounded + 8;
      ListsLength(lists[..], bits[..], link, chains, filed);
      bucket := FindNonemptyBucket(bits, start);
      if bucket == -1 {
        NothingFits(lists[..], bits[..], link, chains, filed, request);
        NoneServe(t, rounded);
        SizeOfSpans();
        var ok;
        ghost var at;
        ok, at, grow := GrowFor(rounded);
        if !ok {
          return;
        }
        ListsLength(lists[..], bits[..], link, chains, filed);
        bucket := FindNonemptyBucket(bits, start);
        SomethingFits(lists[..], bits[..], link, chains, filed, request, at);
      }
      HeadFits(lists[..], bits[..], link, chains, filed, request, bucket);
      HeadPicked(lists[..], bits[..], link, chains, Tiled(), request, bucket);
    }

    /** Serve a request from the buckets. */
    method BucketAlloc(request: nat) returns (payload: nat, ghost path: seq<Step>)
      requires Valid() && Bucketed(request)
      modifies this, lists, bits, pages.map_
      ensures Valid() && PagesOfOthers() == old(PagesOfOthers())
      ensures payload != 0 <==> old(CanAllocate(request))
      ensures payload == 0 ==>
                && Used() == old(Used()) && filed == old(filed) && size == old(size)
                && pages.map_[..] == old(pages.map_[..]) && path == []
      ensures payload != 0 ==>
                && payload % 8 == 0 && 8 < payload && payload - 8 !in old(Used()) && payload - 8 in Used()
                && Used() == old(Used())[payload - 8 := Used()[payload - 8]] && InSmallSpan(Tiled(), payload - 8)
                && var n, rounded := Used()[payload - 8], Rounded(request);
                request + 8 <= rounded <= n && (n < rounded + 16 || n <= rounded + request / 64)
      ensures payload != 0 ==>
                if old(HasArea(request)) then size == old(size)
                else old(size) <= size && GrownBy(old(pages.map_[..]), old(size), Rounded(request), size - old(size))
      ensures 4096 <= old(size) / 8 <= 4194304 && Rounded(request) <= old(size) / 8 && !old(HasArea(request))
              && HasRun(old(pages.map_[..]), RoundUp(old(size) / 8 + 16) / 4096) ==>
                payload != 0 && size == old(size) + RoundUp(old(size) / 8 + 16)
      ensures Runs.Ran(old(Tiled()), Runs.Alloc(request), path, Tiled())
      ensures payload != 0 ==> path != [] && Runs.Takes(Runs.Last(path), payload - 8)
    {
      hide TilesOk, HasRun, Total, FreeAreas, UsedAreas, SpansIn, SpanLengths, Allocating, Runs.Ran, Steps, Picked,
           CanServe, GrowsFor, InSmallSpan, Heap.Listed, Heap.Backed, Heap.PagesOfOthers, Heap.CanAllocate;
      ghost var t := Tiled();
      RequestRounded(request);
      var bucket, grow := FindBucket(request);
      if bucket == -1 {
        Runs.NotServed(t, request);
        return 0, [];
      }
      ghost var t1, step := Tiled(), grow;
      payload, step := Carve(request, Allocating(request).rounded + 8, bucket);
      if grow.Grow? {
        Runs.GrownServed(t, request, grow, t1, step, Tiled());
        path := [grow, step];
      } else {
        Runs.TakenServed(t, request, step, Tiled());
        path := [step];
      }
    }

    /**
     Hand out a block. It is a fresh one, aligned, and the only change to the blocks in use; a request fails
     exactly when neither the free areas nor the pages that are left can serve it, and then changes nothing.
     */
    method Alloc(request: nat) returns (payload: nat, ghost path: seq<Step>)
      requires Valid()
      modifies this, lists, bits, pages.map_
      ensures Valid() && PagesOfOthers() == old(PagesOfOthers())
      ensures payload != 0 <==> old(CanAllocate(request))
      ensures payload == 0 ==>
                && Used() == old(Used()) && filed == old(filed) && size == old(size)
                && pages.map_[..] == old(pages.map_[..]) && path == []
      ensures payload != 0 ==>
                && payload % 8 == 0 && 8 < payload && payload - 8 !in old(Used()) && payload - 8 in Used()
                && Used() == old(Used())[payload - 8 := Used()[payload - 8]]
                && (request + 8 <= Used()[payload - 8] <==>
                       request + 8 <= 4194304 || (RoundUp8(request) + 16) % 4096 != 0)
      ensures payload != 0 && request + 8 <= 4194304 ==>
                var n, rounded := Used()[payload - 8], Rounded(request);
                rounded <= n && (n < rounded + 16 || n <= rounded + request / 64) && InSmallSpan(Tiled(), payload - 8)
      ensures payload != 0 && request + 8 <= 4194304 ==>
                if old(HasArea(request)) then size == old(size)
                else old(size) <= size && GrownBy(old(pages.map_[..]), old(size), Rounded(request), size - old(size))
      ensures 0 < request && request + 8 <= 4194304 && 4096 <= old(size) / 8 <= 4194304
              && Rounded(request) <= old(size) / 8 && !old(HasArea(request))
              && HasRun(old(pages.map_[..]), RoundUp(old(size) / 8 + 16) / 4096) ==>
                payload != 0 && size == old(size) + RoundUp(old(size) / 8 + 16)
      ensures payload != 0 && request + 8 > 4194304 ==> size == old(size) + RoundUp(RoundUp8(request) + 16)
      ensures Runs.Ran(old(Tiled()), Runs.Alloc(request), path, Tiled())
      ensures old(NarrowSentinels(Tiled())) ==> NarrowSentinels(Tiled())
      ensures payload != 0 && request + 8 <= 4194304 ==> path != [] && Runs.Takes(Runs.Last(path), payload - 8)
    {
      hide ListsOk, TilesOk, HasRun, Total, FreeAreas, UsedAreas, SpansIn, SpanLengths, RoundUp, RoundUp8, Rounded,
           Runs.Ran, Steps, NarrowSentinels, InSmallSpan, Heap.Listed, Heap.Backed, Heap.PagesOfOthers;
      ghost var t := Tiled();
      path := [];
      if request == 0 {
        Runs.NotServed(t, request);
        return 0, [];
      }
      if request + 8 > 4194304 {
        ghost var step;
        payload, step := LargeAlloc(request);
        LargePayload(request);
        if payload == 0 {
          Runs.NotServed(t, request);
        } else {
          Runs.LargeServed(t, request, step, Tiled());
          path := [step];
        }
      } else {
        payload, path := BucketAlloc(request);
      }
      KeepsNarrow(t, Runs.Alloc(request), path, Tiled());
    }

    // ----- releasing -----

    /**
     Take the free neighbours of a block off their lists and let the area after them point to the first of the stretch.
     */
    method Coalesce(a: nat) returns (lo: nat, left: nat, total: nat)
      requires Valid() && a in Used()
      modifies this`remaining, this`hdr, this`link, this`chains, this`filed, lists, bits
      ensures Separate() && Backed() && Listed()
      ensures a in old(hdr) && lo == Low(old(Tiled()), a) && lo + total == High(old(Tiled()), a)
      ensures lo in old(hdr) && left == old(hdr)[lo].left
      ensures filed == old(filed) - FreeNeighbours(old(Tiled()), a)
      ensures lo + total in old(hdr) && hdr == old(hdr)[lo + total := old(hdr)[lo + total].(left := lo)]
    {
      hide ListsOk, TilesOk, Total, UsedAreas, SpansIn, SpanLengths, Heap.Listed, Heap.Backed;
      ghost var t := Tiled();
      BlockHeaders(t, a);
      var size := hdr[a].size;
      left := hdr[a].left;
      var right := a + size;
      if left != 0 && hdr[left].free {
        UnlinkFreeUnknownBucket(left);
        if hdr[right].free {
          UnlinkFreeUnknownBucket(right);
          var rightRight := right + hdr[right].size;
          FixLeftPointer(rightRight, left);
          lo, left, total := left, hdr[left].left, hdr[left].size + size + hdr[right].size;
        } else {
          FixLeftPointer(right, left);
          lo, left, total := left, hdr[left].left, hdr[left].size + size;
        }
      } else {
        if hdr[right].free {
          var rightRight := right + hdr[right].size;
          UnlinkFreeUnknownBucket(right);
          FixLeftPointer(rightRight, a);
          lo, total := a, size + hdr[right].size;
        } else {
          lo, total := a, size;
        }
      }
    }

    method FreeToOs(left: nat, bytes: nat, ghost i: nat)
      requires Separate() && Backed() && i in spans && SpanOk(spans[i]) && left == spans[i].base
      requires bytes == spans[i].length
      requires forall j :: j in spans && j != i ==> SpanOk(spans[j]) && Apart(spans[i], spans[j])
      modifies this`size, this`spans, pages.map_
      ensures Separate() && Backed() && spans == old(spans) - {i} && size == old(size) - bytes
      ensures PagesOfOthers() == old(PagesOfOthers())
      ensures pages.map_ == old(pages.map_) && pages.Taken() == old(pages.Taken()) - SpanPages(old(spans[i]))
    {
      hide Total, PageRange, SpanOk, Apart, Arena.Taken;
      ghost var before, taken := spans, pages.Taken();
      PagesOf(spans, taken, i);
      SpanGone(spans, taken, i);
      OwnGone(spans, taken, i);
      pages.FreePages(left, bytes / 4096);
      size := size - bytes;
      spans := spans - {i};
    }

    /**
     Give the stretch around block a back: to the page allocator if it fills its span, otherwise to the free lists.
     */
    method FreeMemory(address: nat, left: nat, total: nat, ghost t: Tiles, ghost a: nat)
      requires Separate() && Backed() && Listed() && Releasing(t, a)
      requires a in t.hdr && address == Low(t, a) && address + total == High(t, a) && address in t.hdr
      requires left == t.hdr[address].left
      requires address + total in t.hdr && hdr == t.hdr[address + total := t.hdr[address + total].(left := address)]
      requires areas == t.areas && spanOf == t.spanOf && spans == t.spans
      requires filed == FreeAreas(t) - FreeNeighbours(t, a)
      modifies this, lists, bits, pages.map_
      ensures Valid() && Used() == UsedAreas(t) - {a} && a in t.spanOf && t.spanOf[a] in t.spans
      ensures PagesOfOthers() == old(PagesOfOthers())
      ensures FillsSpan(t, a) ==>
                && spans == t.spans - {t.spanOf[a]}
                && pages.Taken() == old(pages.Taken()) - SpanPages(t.spans[t.spanOf[a]])
      ensures !FillsSpan(t, a) ==> spans == t.spans && pages.Taken() == old(pages.Taken())
      ensures Tiled() == Released(t, a)
    {
      hide ListsOk, TilesOk, Total, UsedAreas, FreeAreas, SpansIn, SpanLengths, Low, High, FreeNeighbours, Arena.Taken,
           SpanPages, Heap.Listed, Heap.Backed;
      StretchEnd(t, a);
      if left % 4096 == 0 && hdr[left].left == 0 && !hdr[left].free && hdr[address + total].size == 0 {
        ghost var i := t.spanOf[a];
        ReleaseRemovesSpan(t, hdr, a);
        AllSpans(t, i);
        FreeToOs(left, total + hdr[left].size + 8, i);
        ghost var t' := RemoveSpan(t, hdr, i);
        areas := t'.areas;
        assert Tiled() == t';
      } else {
        ReleaseKeepsSpan(t, a);
        CreateFreeArea(address, left, total);
        ghost var t' := Merge(t, address, address + total, true);
        areas := t'.areas;
        assert Tiled() == t';
      }
    }

    /**
     Release a block. No other block is affected; the pages of its span go back exactly when the span holds
     no other block.
     */
    method Free(payload: nat)
      requires Valid() && (payload == 0 || (8 <= payload && payload - 8 in Used()))
      modifies this, lists, bits, pages.map_
      ensures Valid() && PagesOfOthers() == old(PagesOfOthers())
      ensures payload == 0 ==> Tiled() == old(Tiled()) && size == old(size) && pages.Taken() == old(pages.Taken())
      ensures payload != 0 ==>
                var a, t := payload - 8, old(Tiled());
                && Used() == old(Used()) - {a} && a in t.spanOf && t.spanOf[a] in t.spans
                && (OnlyBlock(t, a) ==>
                      && spans == t.spans - {t.spanOf[a]}
                      && pages.Taken() == old(pages.Taken()) - SpanPages(t.spans[t.spanOf[a]]))
                && (!OnlyBlock(t, a) ==> spans == t.spans && pages.Taken() == old(pages.Taken()))
                && Runs.Ran(t, Runs.Free(a), [Step.Release(a)], Tiled()) && SentinelsAfterFree(t, a, Tiled())
    {
      hide ListsOk, TilesOk, Total, UsedAreas, FreeAreas, SpansIn, SpanLengths, Low, High, FreeNeighbours, Arena.Taken,
           SpanPages, OnlyBlock, FillsSpan, Released, SentinelsAfterFree, Runs.Ran, Heap.Listed, Heap.Backed,
           Heap.PagesOfOthers;
      if payload == 0 {
        return;
      }
      ghost var t, a := Tiled(), payload - 8;
      FillsSpanIffOnlyBlock(t, a);
      var lo, left, total := Coalesce(payload - 8);
      FreeMemory(lo, left, total, t, a);
      ReleaseStep(t, a);
      Runs.FreeServed(t, a, Tiled());
      SentinelsReleased(t, a);
    }

    // ----- aligned blocks -----

    /** Write the headers of the two parts of a block and let the area after it point to the second one. */
    method CutHeaders(a: nat, leftOver: nat)
      requires a in hdr && 0 < leftOver < hdr[a].size && a + hdr[a].size in hdr
      modifies this`hdr
      ensures var h := old(hdr);
              hdr == h[a + leftOver := Header(a, false, h[a].size - leftOver)][a := h[a].(size := leftOver)]
                      [a + h[a].size := h[a + h[a].size].(left := a + leftOver)]
    {
      var _ := CreateAllocationHeader(a + leftOver, 0, hdr[a].size - leftOver, a);
      var right := a + hdr[a].size;
      hdr := hdr[a := hdr[a].(size := leftOver)];
      FixLeftPointer(right, a + leftOver);
    }

    /** Cut a block in two, both in use. */
    method CutBlock(a: nat, leftOver: nat)
      requires Valid() && a in Used() && InSmallSpan(Tiled(), a) && 16 <= leftOver && leftOver + 16 <= Used()[a]
      requires leftOver % 8 == 0
      modifies this`hdr, this`areas, this`spanOf
      ensures Valid() && a + leftOver !in old(Used())
      ensures Used() == old(Used())[a := leftOver][a + leftOver := old(Used()[a]) - leftOver]
      ensures Steps(old(Tiled()), Step.Cut(a, leftOver), Tiled())
    {
      hide ListsOk, TilesOk, Total, FreeAreas, UsedAreas, SpansIn, SpanLengths, CanSplit, Split, Steps, Heap.Listed,
           Heap.Backed, Heap.PagesOfOthers, Heap.Separate, Arena.Valid;
      ghost var t := Tiled();
      CutOk(t, a, leftOver);
      CutHeaders(a, leftOver);
      ghost var t' := Split(t, a, leftOver, false);
      areas, spanOf := t'.areas, t'.spanOf;
      assert Tiled() == t';
      CutStep(t, a, leftOver);
    }

    /** The blocks in use are those in `used` and a new one with this payload. */
    ghost predicate FreshBlock(used: map<nat, nat>, payload: nat)
      reads this`hdr, this`areas, this`spanOf, this`spans
    {
      8 < payload && payload - 8 !in used && payload - 8 in Used() && Used() == used[payload - 8 := Used()[payload - 8]]
    }

    /**
     Hand out a block whose payload starts at a multiple of the alignment, a power of two. From alignment 8 on a
     request that cannot be met is not reported: the address returned is neither NULL nor a block.
     */
    method Memalign(request: nat, alignment: nat, ghost exponent: nat) returns (payload: nat, ghost path: seq<Step>)
      requires Valid() && alignment == Pow2(exponent)
      requires 8 <= alignment ==> request + alignment + 24 + 8 <= 4194304
      modifies this, lists, bits, pages.map_
      ensures Valid() && PagesOfOthers() == old(PagesOfOthers())
      ensures Runs.Ran(old(Tiled()), Runs.Memalign(request, alignment), path, Tiled())
      ensures old(NarrowSentinels(Tiled())) ==> NarrowSentinels(Tiled())
      ensures alignment < 8 ==> (payload != 0 <==> old(CanAllocate(request)))
      ensures payload == 0 || (FreshBlock(old(Used()), payload) && Aligned(payload, alignment)) <==>
                alignment < 8 || old(CanAllocate(request + alignment + 24))
      ensures !FreshBlock(old(Used()), payload) ==> Used() == old(Used())
      ensures FreshBlock(old(Used()), payload) && (8 <= alignment || request + 8 <= 4194304) ==>
                request + 8 <= Used()[payload - 8]
    {
      hide ListsOk, TilesOk, Total, FreeAreas, UsedAreas, SpansIn, SpanLengths, Pow2, Allocating, HasRun, RoundUp,
           RoundUp8, Aligned, InSmallSpan, Runs.Ran, Steps, NarrowSentinels, SentinelsAfterFree, OnlyBlock, Heap.Listed,
           Heap.Backed, AlignedPayload, Heap.CanAllocate, Heap.PagesOfOthers, SpanPages, Arena.Taken, Arena.Valid,
           Heap.Separate;
      ghost var t := Tiled();
      if alignment < 8 {
        payload, path := Alloc(request);
        SmallAlignment(exponent, payload);
        Runs.SmallAlignServed(t, request, alignment, path, Tiled());
        return;
      }
      var unaligned;
      unaligned, path := Alloc(PaddedSize(request, alignment));
      payload := AlignedPayload(unaligned, alignment);
      if unaligned == 0 {
        AlignedPayloadOfNull(alignment);
        Runs.NotAligned(t, request, alignment, Tiled());
        return;
      }
      LargeAlignment(exponent, unaligned);
      RequestRounded(PaddedSize(request, alignment));
      var leftOver := payload - unaligned;
      ghost var t1 := Tiled();
      CutBlock(unaligned - 8, leftOver);
      ghost var t2 := Tiled();
      Free(unaligned);
      ReleaseStepOf(t2, unaligned - 8, Tiled());
      Runs.AlignServed(t, request, alignment, path, unaligned - 8, t1, t2, Tiled());
      path := path + [Step.Cut(unaligned - 8, leftOver)] + [Step.Release(unaligned - 8)];
      KeepsNarrow(t, Runs.Memalign(request, alignment), path, Tiled());
    }

    // ----- trimming -----

    /** Give back pages of span i that its areas no longer use. */
    method ReturnPages(address: nat, bytes: nat, ghost i: nat, ghost sp: Span)
      requires Separate() && Backed() && i in spans && SpanOk(spans[i]) && SpanOk(sp) && SpanOk(Span(address, bytes))
      requires Parts(spans[i], sp, Span(address, bytes))
      requires forall j :: j in spans && j != i ==> SpanOk(spans[j]) && Apart(spans[i], spans[j])
      modifies this`size, this`spans, pages.map_
      ensures Separate() && Backed() && spans == old(spans)[i := sp] && size == old(size) - bytes
      ensures pages.map_ == old(pages.map_)
      ensures SpanPages(Span(address, bytes)) <= old(pages.Taken())
      ensures pages.Taken() == old(pages.Taken()) - SpanPages(Span(address, bytes))
      ensures PagesOfOthers() == old(PagesOfOthers())
    {
      hide Total, PageRange, Apart, Arena.Taken, Parts;
      ghost var taken := pages.Taken();
      OwnLess(spans, taken, i, sp, Span(address, bytes));
      SpanShrinks(spans, taken, i, sp, Span(address, bytes));
      pages.FreePages(address, bytes / 4096);
      size := size - bytes;
      spans := spans[i := sp];
    }

    /** Refile a free area with fewer bytes, followed by a right sentinel. */
    method Shorten(f: nat, bucket: nat, ghost k: nat, newFree: nat)
      requires Listed() && bucket < 136 && |chains| == 136 && k < |chains[bucket]| && chains[bucket][k] == f
      requires f in filed && f != 0
      requires f in hdr && hdr[f].size == filed[f] && 16 <= newFree < filed[f] <= MAX_SPAN
      modifies this`hdr, this`remaining, this`link, this`chains, this`filed, lists, bits
      ensures Listed() && filed == (old(filed) - {f})[f := newFree]
      ensures hdr == old(hdr)[f + newFree := Header(f, false, 0)][f := Header(old(hdr)[f].left, true, newFree)]
      ensures |chains| == 136 && EndsWith(chains[bucket], old(chains[bucket])[k + 1..])
    {
      hide Freeing, EndsWith, Dropped, Pushed, Heap.Listed;
      ghost var tail := chains[bucket][k + 1..];
      UnlinkFree(f, bucket, k);
      DroppedTail(old(chains), chains, bucket, k);
      var _ := CreateAllocationHeader(f, newFree, 0, f);
      ghost var without := chains;
      CreateFreeArea(f, hdr[f].left, newFree);
      PushedTail(without, chains, Freeing(newFree - 8), f, bucket, tail);
    }

    /** The right end of the span is a free area: keep only the page it starts on. */
    method TrimEnd(f: nat, bucket: nat, ghost k: nat) returns (ghost cut: bool)
      requires Valid() && bucket < 136 && |chains| == 136 && k < |chains[bucket]| && chains[bucket][k] == f
      requires f in filed
      requires Visited(Tiled(), f) && AtRightEnd(Tiled(), f)
      modifies this, lists, bits, pages.map_
      ensures if cut then Steps(old(Tiled()), Step.TrimEnd(f), Tiled()) else Tiled() == old(Tiled())
      ensures Valid() && Used() == old(Used()) && |chains| == 136
      ensures EndsWith(chains[bucket], old(chains[bucket])[k + 1..])
      ensures VisitDone(old(Tiled()), Tiled(), f)
      ensures PagesOfOthers() == old(PagesOfOthers()) && (cut <==> Trimmable(old(Tiled()), f))
      ensures cut ==>
                && f in old(hdr) && NewEnd(f) <= RoundUp(f + old(hdr)[f].size)
                && var returned := Span(NewEnd(f), RoundUp(f + old(hdr)[f].size) - NewEnd(f));
                pages.Taken() == old(pages.Taken()) - SpanPages(returned)
      ensures !cut ==> pages.Taken() == old(pages.Taken())
      ensures pages.Taken() <= old(pages.Taken()) && size - 4096 * |pages.Taken()| == old(size - 4096 * |pages.Taken()|)
    {
      hide ListsOk, TilesOk, Total, FreeAreas, UsedAreas, SpansIn, SpanLengths, Freeing, Arena.Taken, Parts,
           CanTrimRight, TrimRight, RoundUp, VisitDone, EndsWith, Steps, SpanPages, SpanOk, Heap.Listed, Heap.Backed,
           Heap.PagesOfOthers;
      ghost var t, taken := Tiled(), pages.Taken();
      var right := f + hdr[f].size;
      RightEnd(t, f);
      var freed := RoundUp(right) - NewEnd(f);
      if freed == 0 {
        NothingToTrim(t, f);
        TailKept(chains[bucket], k);
        return false;
      }
      RightTrimmed(t, f, freed);
      assert Trimmable(t, f);
      ghost var i := spanOf[f];
      ghost var t' := TrimRight(t, f, freed);
      AllSpans(t, i);
      Shorten(f, bucket, k, hdr[f].size - freed);
      ReturnPages(NewEnd(f), freed, i, t'.spans[i]);
      PagesReturned(taken, Span(NewEnd(f), freed));
      areas, spanOf := t'.areas, t'.spanOf;
      assert Tiled() == t';
      TrimEndStep(t, f, freed);
      return true;
    }

    /** Lay out the new left end at `start`: a sentinel, and a free area if there is room for one. */
    method MoveStart(f: nat, bucket: nat, ghost k: nat, start: nat, right: nat, freed: nat)
      requires Listed() && bucket < 136 && |chains| == 136 && k < |chains[bucket]| && chains[bucket][k] == f
      requires f in filed
      requires f in hdr && hdr[f].size == filed[f] && freed <= filed[f] <= MAX_SPAN && right in hdr && f < start
      requires right == f + hdr[f].size && start + 8 + (filed[f] - freed) == right
      requires start + 8 !in filed || filed[f] - freed < 16
      modifies this`hdr, this`remaining, this`link, this`chains, this`filed, lists, bits
      ensures Listed() && |chains| == 136 && EndsWith(chains[bucket], old(chains[bucket])[k + 1..])
      ensures var n := old(filed)[f] - freed;
              && (n < 16 ==>
                    && filed == old(filed) - {f}
                    && hdr == old(hdr)[start := Header(0, false, 8 + n)][right := old(hdr)[right].(left := start)])
              && (16 <= n ==>
                    && filed == (old(filed) - {f})[start + 8 := n]
                    && hdr == old(hdr)[start := Header(0, false, 8)][start + 8 := Header(start, true, n)]
                           [right := old(hdr)[right].(left := start + 8)])
    {
      hide Freeing, EndsWith, Dropped, Pushed, Heap.Listed;
      ghost var tail := chains[bucket][k + 1..];
      UnlinkFree(f, bucket, k);
      DroppedTail(old(chains), chains, bucket, k);
      ghost var without := chains;
      var sentinel, newFree := 8, hdr[f].size - freed;
      if newFree < 16 {
        sentinel, newFree := sentinel + newFree, 0;
      }
      var _ := CreateAllocationHeader(start, 0, sentinel, 0);
      if newFree == 0 {
        FixLeftPointer(right, start);
      } else {
        CreateFreeArea(start + sentinel, start, newFree);
        PushedTail(without, chains, Freeing(newFree - 8), start + sentinel, bucket, tail);
        FixLeftPointer(right, start + sentinel);
      }
    }

    /** Move the start of a span and return the pages before it. */
    method CutStart(f: nat, bucket: nat, ghost k: nat, oldStart: nat, start: nat, ghost t': Tiles)
      requires Valid() && bucket < 136 && |chains| == 136 && k < |chains[bucket]| && chains[bucket][k] == f
      requires f in filed
      requires TilesOk(t') && AfterLeftTrim(Tiled(), t', f, start) && oldStart == spans[spanOf[f]].base
      requires SpanOk(Span(oldStart, start - oldStart))
      requires SpanOk(Span(start, oldStart + spans[spanOf[f]].length - start))
      modifies this, lists, bits, pages.map_
      ensures Valid() && Tiled() == t' && |chains| == 136 && EndsWith(chains[bucket], old(chains[bucket])[k + 1..])
      ensures size == old(size) - (start - oldStart) && PagesOfOthers() == old(PagesOfOthers())
      ensures SpanPages(Span(oldStart, start - oldStart)) <= old(pages.Taken())
      ensures pages.Taken() == old(pages.Taken()) - SpanPages(Span(oldStart, start - oldStart))
    {
      hide ListsOk, TilesOk, Total, FreeAreas, UsedAreas, SpansIn, SpanLengths, Arena.Taken, EndsWith, SpanPages,
           SpanOk, Heap.Listed, Heap.Backed, Heap.PagesOfOthers;
      ghost var t, i := Tiled(), spanOf[f];
      AllSpans(t, i);
      MoveStart(f, bucket, k, start, f + hdr[f].size, start - oldStart);
      ReturnPages(oldStart, start - oldStart, i, t'.spans[i]);
      areas, spanOf := t'.areas, t'.spanOf;
      assert Tiled() == t';
    }

    /**
     The left end of the span is a free area: let the span start on the last page that can hold the sentinel. The
     new sentinel is two headers wide exactly when the free area would get eight bytes.
     */
    method TrimStart(f: nat, bucket: nat, ghost k: nat) returns (ghost cut: bool)
      requires Valid() && NarrowSentinel(Tiled(), f) && bucket < 136 && |chains| == 136 && k < |chains[bucket]|
      requires chains[bucket][k] == f && f in filed
      requires Visited(Tiled(), f) && AtLeftEnd(Tiled(), f) && !AtRightEnd(Tiled(), f)
      modifies this, lists, bits, pages.map_
      ensures if cut then Steps(old(Tiled()), Step.TrimStart(f), Tiled()) else Tiled() == old(Tiled())
      ensures cut ==> f in old(spanOf) && HasWidth(Tiled(), old(spanOf)[f], WidthLeft(old(Tiled()), f))
      ensures Valid() && Used() == old(Used()) && |chains| == 136
      ensures EndsWith(chains[bucket], old(chains[bucket])[k + 1..])
      ensures VisitDone(old(Tiled()), Tiled(), f)
      ensures PagesOfOthers() == old(PagesOfOthers()) && (cut <==> Trimmable(old(Tiled()), f))
      ensures cut ==>
                && f in old(hdr) && 8 <= f + old(hdr)[f].size && RoundDown(f) <= NewStart(f + old(hdr)[f].size)
                && var returned := Span(RoundDown(f), NewStart(f + old(hdr)[f].size) - RoundDown(f));
                pages.Taken() == old(pages.Taken()) - SpanPages(returned)
      ensures !cut ==> pages.Taken() == old(pages.Taken())
      ensures pages.Taken() <= old(pages.Taken()) && size - 4096 * |pages.Taken()| == old(size - 4096 * |pages.Taken()|)
    {
      hide ListsOk, TilesOk, Total, FreeAreas, UsedAreas, SpansIn, SpanLengths, Arena.Taken, RoundDown, NewStart,
           AtLeftEnd, AtRightEnd, VisitDone, EndsWith, NarrowSentinel, Steps, WidthLeft, HasWidth, SpanPages, SpanOk,
           AfterLeftTrim, Trimmable, Heap.Listed, Heap.Backed, Heap.PagesOfOthers;
      ghost var t, taken := Tiled(), pages.Taken();
      FreeAreaHeaders(t, f);
      LeftBounds(t, f);
      var right := f + hdr[f].size;
      var oldStart, start := RoundDown(f), NewStart(right);
      if start - oldStart == 0 {
        LeftDone(t, f);
        TailKept(chains[bucket], k);
        return false;
      }
      ghost var t' := LeftPlan(t, f, start);
      CutStart(f, bucket, k, oldStart, start, t');
      PagesReturned(taken, Span(oldStart, start - oldStart));
      TrimStartStep(t, f, start);
      return true;
    }

    method TrimArea(f: nat, bucket: nat, ghost k: nat) returns (ghost path: seq<Step>)
      requires Valid() && Visited(Tiled(), f) && TrimSafe(Tiled()) && bucket < 136 && |chains| == 136
      requires k < |chains[bucket]| && chains[bucket][k] == f && f in filed
      modifies this, lists, bits, pages.map_
      ensures TrimPath(old(Tiled()), path, Tiled())
      ensures Valid() && TrimSafe(Tiled()) && Used() == old(Used()) && |chains| == 136
      ensures EndsWith(chains[bucket], old(chains[bucket])[k + 1..])
      ensures VisitDone(old(Tiled()), Tiled(), f)
      ensures PagesOfOthers() == old(PagesOfOthers())
      ensures pages.Taken() == old(pages.Taken()) - VisitPages(old(Tiled()), f)
      ensures pages.Taken() <= old(pages.Taken()) && size - 4096 * |pages.Taken()| == old(size - 4096 * |pages.Taken()|)
    {
      hide ListsOk, TilesOk, Total, FreeAreas, UsedAreas, SpansIn, SpanLengths, Arena.Taken, EndsWith, VisitDone,
           NarrowSentinel, TrimSafe, TrimPath, Steps, Visited, WidthLeft, HasWidth, SpanPages, Heap.Listed, Heap.Backed,
           Heap.PagesOfOthers, Arena.Valid, RoundUp, RoundDown, NewEnd, NewStart, SpanOk;
      ghost var t, cut := Tiled(), false;
      FreeAreaHeaders(t, f);
      NoTrimStep(t);
      path := [];
      var right, left := f + hdr[f].size, hdr[f].left;
      if hdr[right].size == 0 {
        cut := TrimEnd(f, bucket, k);
        if cut { path := [Step.TrimEnd(f)]; }
      } else if hdr[left].left == 0 && !hdr[left].free {
        SafeAt(t, f);
        cut := TrimStart(f, bucket, k);
        if cut { path := [Step.TrimStart(f)]; }
      } else {
        NothingToTrim(Tiled(), f);
        TailKept(chains[bucket], k);
      }
      if cut { OneTrimStep(t, path[0], Tiled()); }
      TrimPathSafe(t, path, Tiled());
    }

    lemma ListedLength()
      requires Listed()
      ensures |chains| == 136 && lists.Length == 136
    {
      ListsLength(lists[..], bits[..], link, chains, filed);
    }

    lemma ListedHead(bucket: nat)
      requires Listed() && bucket < 136
      ensures |chains| == 136 && lists.Length == 136 && 0 !in chains[bucket]
      ensures lists[bucket] == if chains[bucket] == [] then 0 else chains[bucket][0]
    {
      hide Has, FiledIn, Filed;
      assert ChainOk(lists[..][bucket], link, chains[bucket]);
    }

    lemma ListedNext(bucket: nat, k: nat)
      requires Listed() && bucket < 136 && |chains| == 136 && k < |chains[bucket]|
      ensures chains[bucket][k] in link && link[chains[bucket][k]].next == After(chains[bucket], k)
      ensures chains[bucket][k] in filed
    {
      hide Has, Filed;
      assert ChainOk(lists[..][bucket], link, chains[bucket]);
      assert TwoWayLinkedAt(link, chains[bucket], k);
      assert FiledIn(filed, chains[bucket], bucket);
    }

    lemma ListedArea(x: nat)
      requires Listed() && x in filed
      ensures |chains| == 136 && 16 <= filed[x] && 0 <= Freeing(filed[x] - 8) < 136
      ensures x in chains[Freeing(filed[x] - 8)]
    {
      hide ListsOk, Freeing;
      var k := FiledAt(lists[..], bits[..], link, chains, filed, x);
    }

    lemma TrimmableArea(x: nat)
      requires Listed() && filed == FreeAreas(Tiled()) && Trimmable(Tiled(), x)
      ensures x in filed && x in hdr && filed[x] == hdr[x].size && 16 <= filed[x] && |chains| == 136
      ensures 0 <= Freeing(filed[x] - 8) < 136 && x in chains[Freeing(filed[x] - 8)]
    {
      hide Heap.Listed, AtLeftEnd, AtRightEnd, NewEnd, NewStart, RoundUp, RoundDown, Freeing;
      assert IsFree(Tiled(), x);
      ListedArea(x);
    }

    /** All areas that have not been visited when bucket b is reached are in bucket b or later. */
    lemma StartBucket(first: int, bucket: nat)
      requires Listed() && filed == FreeAreas(Tiled()) && |chains| == 136 && bucket <= 136
      requires first == bucket || (0 < bucket && StillToVisit(Tiled(), first, bucket - 1, []))
      ensures StillToVisit(Tiled(), first, bucket, if bucket < 136 then chains[bucket] else [])
    {
      hide Heap.Listed, Trimmable, Freeing, FreeAreas;
      forall x | Trimmable(Tiled(), x)
        ensures x in filed && x in hdr && filed[x] == hdr[x].size && 16 <= filed[x] && 0 <= Freeing(filed[x] - 8) < 136
        ensures x in chains[Freeing(filed[x] - 8)]
      {
        TrimmableArea(x);
      }
    }

    /**
     Return pages at the ends of spans. The blocks stay as they are; every byte taken off the heap's size is a
     page returned; afterwards no free area in the buckets of a page or more can be trimmed.
     */
    method Trim() returns (ghost path: seq<Step>)
      requires Valid() && TrimSafe(Tiled())
      modifies this, lists, bits, pages.map_
      ensures Valid() && TrimSafe(Tiled()) && (old(NarrowSentinels(Tiled())) ==> NarrowSentinels(Tiled()))
      ensures Used() == old(Used())
      ensures Runs.Ran(old(Tiled()), Runs.Trim, path, Tiled())
      ensures PagesOfOthers() == old(PagesOfOthers())
      ensures pages.Taken() == old(pages.Taken()) - TrimmedPages(old(Tiled()))
      ensures pages.Taken() <= old(pages.Taken()) && size - 4096 * |pages.Taken()| == old(size - 4096 * |pages.Taken()|)
      ensures forall x :: x in filed && Trimmable(Tiled(), x) ==> filed[x] < 4104
    {
      hide ListsOk, TilesOk, Total, FreeAreas, UsedAreas, SpansIn, SpanLengths, Arena.Taken, TrimSafe, TrimPath,
           NarrowSentinels, Visited, Freeing, ChainOk, Trimmable, Runs.Ran, VisitPages, TrimmedPages, Heap.Listed,
           Heap.Backed, Heap.PagesOfOthers, SpanPages, Arena.Valid(), VisitDone, StillToVisit;
      ghost var t := Tiled();
      path := [];
      NoTrimStep(t);
      PageBucket();
      ListedLength();
      var bucket := Freeing(4096);
      ghost var first := bucket;
      StartBucket(first, bucket);
      while bucket < 136
        invariant first <= bucket <= 136 && Valid() && TrimSafe(Tiled()) && TrimPath(t, path, Tiled())
        invariant Used() == old(Used()) && |chains| == 136
        invariant PagesOfOthers() == old(PagesOfOthers())
        invariant pages.Taken() - TrimmedPages(Tiled()) == old(pages.Taken()) - TrimmedPages(t)
        invariant pages.Taken() <= old(pages.Taken())
        invariant size - 4096 * |pages.Taken()| == old(size - 4096 * |pages.Taken()|)
        invariant StillToVisit(Tiled(), first, bucket, if bucket < 136 then chains[bucket] else [])
      {
        var f := lists[bucket];
        ghost var tail := chains[bucket];
        ListedHead(bucket);
        while f != 0
          invariant Valid() && TrimSafe(Tiled()) && TrimPath(t, path, Tiled()) && Used() == old(Used())
          invariant |chains| == 136
          invariant PagesOfOthers() == old(PagesOfOthers())
          invariant pages.Taken() - TrimmedPages(Tiled()) == old(pages.Taken()) - TrimmedPages(t)
          invariant pages.Taken() <= old(pages.Taken())
          invariant size - 4096 * |pages.Taken()| == old(size - 4096 * |pages.Taken()|)
          invariant EndsWith(chains[bucket], tail) && 0 !in tail && f == (if tail == [] then 0 else tail[0])
          invariant StillToVisit(Tiled(), first, bucket, tail)
          decreases |tail|
        {
          ghost var k := |chains[bucket]| - |tail|;
          ListedNext(bucket, k);
          var next := link[f].next;
          ghost var before, taken := Tiled(), pages.Taken();
          ListedVisited(bucket, k);
          ghost var more := TrimArea(f, bucket, k);
          TrimPathsJoin(t, path, before, more, Tiled());
          TrimmedStep(before, Tiled(), f, taken);
          path := path + more;
          OneVisitLess(before, Tiled(), first, bucket, tail);
          f, tail := next, tail[1..];
        }
        bucket := bucket + 1;
        StartBucket(first, bucket);
      }
      NoneToVisit();
      NoneTrimmed(Tiled());
      TrimPathDone(t, path, Tiled());
      KeepsNarrow(t, Runs.Trim, path, Tiled());
    }

    /** When all buckets have been visited, no area of a page or more can be trimmed. */
    lemma NoneToVisit()
      requires Listed() && filed == FreeAreas(Tiled()) && |chains| == 136
      requires StillToVisit(Tiled(), Freeing(4096), 136, [])
      ensures forall x {:trigger Trimmable(Tiled(), x)} :: Trimmable(Tiled(), x) ==>
                x in filed && x in hdr && filed[x] == hdr[x].size && hdr[x].size < 4104
    {
      hide Heap.Listed, Trimmable, Freeing, FreeAreas;
      forall x | Trimmable(Tiled(), x)
        ensures x in filed && x in hdr && filed[x] == hdr[x].size && hdr[x].size < 4104
      {
        TrimmableArea(x);
        PageOrMore(filed[x] - 8);
      }
    }

    /** The areas that are visited have a payload of a page or more. */
    lemma ListedVisited(bucket: nat, k: nat)
      requires Listed() && filed == FreeAreas(Tiled()) && TilesOk(Tiled()) && Freeing(4096) <= bucket < 136
      requires |chains| == 136 && k < |chains[bucket]|
      ensures Visited(Tiled(), chains[bucket][k])
    {
      hide Has, Filed, Freeing, ChainOk, TilesOk;
      var f := chains[bucket][k];
      assert FiledIn(filed, chains[bucket], bucket);
      FiledHeader(Tiled(), f);
      PageOrMore(filed[f] - 8);
    }
  }

  /** A chain has lost its k-th area. */
  ghost predicate Dropped(chains: seq<seq<nat>>, chains': seq<seq<nat>>, b: nat, k: nat) {
    b < |chains| && k < |chains[b]| && chains' == chains[b := Without(chains[b], k)]
  }

  /** An area has become the head of a chain. */
  ghost predicate Pushed(chains: seq<seq<nat>>, chains': seq<seq<nat>>, b: int, a: nat) {
    0 <= b < |chains| && chains' == chains[b := [a] + chains[b]]
  }

  // ----- pages -----

  /** Spans made of different pages do not overlap. */
  lemma ApartIfPagesDiffer(a: Span, b: Span)
    requires SpanOk(a) && SpanOk(b)
    ensures SpanPages(a) !! SpanPages(b) <==> Apart(a, b)
  {
    var i, m, j, n := a.base / 4096, a.length / 4096, b.base / 4096, b.length / 4096;
    assert a.base == 4096 * i && a.length == 4096 * m && b.base == 4096 * j && b.length == 4096 * n;
    if !Apart(a, b) {
      var p := if i <= j then j else i;
      assert p in SpanPages(a) && p in SpanPages(b);
    }
  }

  lemma FreshSpan(t: Tiles, i: nat, taken: set<nat>, sp: Span, free: bool)
    requires TilesOk(t) && i !in t.spans && SpansIn(t.spans, taken) && SpanOk(sp) && SpanPages(sp) !! taken
    requires free ==> sp.length <= MAX_SPAN
    ensures CanAdd(t, i, sp.base, sp.length, free)
    ensures SpansIn(t.spans[i := sp], taken + SpanPages(sp))
    ensures sp.base + 8 !in t.areas
  {
    hide AreaOk, SpanOk, Apart, SpanPages;
    forall j | j in t.spans
      ensures Apart(sp, t.spans[j])
    {
      PageBase(t, j);
      assert SpanPages(t.spans[j]) <= taken;
      ApartIfPagesDiffer(sp, t.spans[j]);
    }
    AddSpanFree(t, i, sp.base, sp.length, free);
  }

  lemma AddedParts(t: Tiles, i: nat, base: nat, len: nat)
    requires i !in t.spans && 32 <= len
    ensures var t' := AddSpan(t, i, base, len, true);
            && t'.hdr == t.hdr[base := Header(0, false, 8)][base + 8 := Header(base, true, len - 16)]
                   [base + len - 8 := Header(base + 8, false, 0)]
            && t'.spans == t.spans[i := Span(base, len)]
            && Total(SpanLengths(t'.spans)) == Total(SpanLengths(t.spans)) + len
  {
    TotalAdd(SpanLengths(t.spans), i, len);
    assert SpanLengths(t.spans[i := Span(base, len)]) == SpanLengths(t.spans)[i := len];
  }

  /** A new span whose area is handed out at once. */
  lemma AddSpanBlock(t: Tiles, i: nat, base: nat, length: nat)
    requires CanAdd(t, i, base, length, false)
    ensures 4096 <= length && (base + 16) % 8 == 0
    ensures var free, used := AddSpan(t, i, base, length, true), AddSpan(t, i, base, length, false);
            && base + 8 in free.hdr && free.hdr[base + 8] == Header(base, true, length - 16)
            && used == free.(hdr := free.hdr[base + 8 := Header(base, false, length - 16)])
            && TilesOk(used) && base + 8 !in UsedAreas(t)
            && FreeAreas(used) == FreeAreas(t)
            && UsedAreas(used) == UsedAreas(t)[base + 8 := length - 16]
  {
    hide TilesOk;
    AddSpanOk(t, i, base, length, false);
    AddSpanFree(t, i, base, length, false);
    AddSpanUsed(t, i, base, length, false);
    PagesAligned(Span(base, length));
    hide UsedAreas, FreeAreas;
    var free, used := AddSpan(t, i, base, length, true), AddSpan(t, i, base, length, false);
    assert used.hdr == free.hdr[base + 8 := Header(base, false, length - 16)];
  }

  lemma AddSpanFreeArea(t: Tiles, i: nat, base: nat, length: nat)
    requires CanAdd(t, i, base, length, true)
    ensures TilesOk(AddSpan(t, i, base, length, true))
    ensures FreeAreas(AddSpan(t, i, base, length, true)) == FreeAreas(t)[base + 8 := length - 16]
    ensures UsedAreas(AddSpan(t, i, base, length, true)) == UsedAreas(t)
  {
    hide TilesOk, AddSpan;
    AddSpanOk(t, i, base, length, true);
    AddSpanFree(t, i, base, length, true);
    AddSpanUsed(t, i, base, length, true);
  }

  /** Any growth that is tried fits the buckets, covers the request and takes at least the pages of the smallest. */
  lemma GrowthOf(growby: nat, rounded: nat)
    requires (growby == 4194304 || rounded <= growby) && growby <= 4194304 && rounded <= 4194312
    ensures GrowthFor(growby) <= MAX_SPAN && rounded <= GrowthFor(growby) - 16
    ensures GrowthFor(rounded) <= GrowthFor(growby)
    ensures growby <= rounded ==> GrowthFor(rounded) == GrowthFor(growby)
  {
  }

  /** The headers that are read when block a is released. */
  lemma BlockHeaders(t: Tiles, a: nat)
    requires Releasing(t, a)
    ensures a in t.hdr && t.hdr[a].left in t.hdr && a + t.hdr[a].size in t.hdr && 0 < t.hdr[a].left < a
    ensures 16 <= t.hdr[a].size
    ensures var left, right := t.hdr[a].left, a + t.hdr[a].size;
            && left + t.hdr[left].size == a && t.hdr[right].left == a
            && (t.hdr[left].free ==> left in FreeAreas(t) && FreeAreas(t)[left] == t.hdr[left].size)
            && (t.hdr[right].free ==>
                   right in FreeAreas(t) && FreeAreas(t)[right] == t.hdr[right].size && 16 <= t.hdr[right].size
                                      && right + t.hdr[right].size in t.hdr
                                      && t.hdr[right + t.hdr[right].size].left == right)
  {
    BlockInterior(t, a);
    Neighbourhood(t, a);
    var right := a + t.hdr[a].size;
    if t.hdr[right].free { Blocks(t, right); Neighbourhood(t, right); }
  }

  lemma BlockSpan(t: Tiles, a: nat)
    requires Releasing(t, a)
    ensures a in t.spanOf && t.spanOf[a] in t.spans && SpanOk(t.spans[t.spanOf[a]])
    ensures t.spans[t.spanOf[a]].base + 8 <= a && a + UsedAreas(t)[a] <= t.spans[t.spanOf[a]].Top()
  {
    Blocks(t, a);
    Neighbourhood(t, a);
    PageBase(t, t.spanOf[a]);
    hide TilesOk, SpanOk;
  }

  lemma PagesOf(spans: map<nat, Span>, taken: set<nat>, i: nat)
    requires SpansIn(spans, taken) && i in spans && SpanOk(spans[i])
    ensures spans[i].base % 4096 == 0
    ensures PageRange(spans[i].base / 4096, spans[i].length / 4096) == SpanPages(spans[i]) <= taken
  {
  }

  /** Giving back the pages of one span leaves the pages of the others taken. */
  lemma SpanGone(spans: map<nat, Span>, taken: set<nat>, i: nat)
    requires SpansIn(spans, taken) && i in spans && SpanOk(spans[i])
    requires forall j :: j in spans && j != i ==> SpanOk(spans[j]) && Apart(spans[i], spans[j])
    ensures SpansIn(spans - {i}, taken - SpanPages(spans[i]))
    ensures Total(SpanLengths(spans)) == spans[i].length + Total(SpanLengths(spans - {i}))
  {
    hide SpanOk, Apart, SpanPages, Total;
    forall j | j in spans - {i}
      ensures SpanPages(spans[j]) <= taken - SpanPages(spans[i])
    {
      assert SpanPages(spans[j]) <= taken;
      ApartIfPagesDiffer(spans[i], spans[j]);
    }
    TotalRemove(SpanLengths(spans), i);
    assert SpanLengths(spans) - {i} == SpanLengths(spans - {i});
  }

  /** The taken pages outside all spans stay the same when a span is added, taken away or shortened with its pages. */
  lemma OwnMore(spans: map<nat, Span>, taken: set<nat>, i: nat, sp: Span)
    requires i !in spans && SpanPages(sp) !! taken
    ensures taken + SpanPages(sp) - OwnPages(spans[i := sp]) == taken - OwnPages(spans)
  {
    hide SpanPages;
    var spans' := spans[i := sp];
    forall p
      ensures p in OwnPages(spans') <==> p in OwnPages(spans) || p in SpanPages(sp)
    {
      if p in OwnPages(spans) {
        var j :| j in spans && p in SpanPages(spans[j]);
        assert p in SpanPages(spans'[j]);
      }
      if p in SpanPages(sp) { assert p in SpanPages(spans'[i]); }
    }
  }

  lemma OwnGone(spans: map<nat, Span>, taken: set<nat>, i: nat)
    requires i in spans
    ensures taken - SpanPages(spans[i]) - OwnPages(spans - {i}) == taken - OwnPages(spans)
  {
    hide SpanPages;
    var spans' := spans - {i};
    forall p
      ensures p in OwnPages(spans) <==> p in OwnPages(spans') || p in SpanPages(spans[i])
    {
      if p in OwnPages(spans) {
        var j :| j in spans && p in SpanPages(spans[j]);
        if j != i { assert p in SpanPages(spans'[j]); }
      }
      if p in OwnPages(spans') {
        var j :| j in spans' && p in SpanPages(spans'[j]);
        assert p in SpanPages(spans[j]);
      }
    }
  }

  lemma OwnLess(spans: map<nat, Span>, taken: set<nat>, i: nat, sp: Span, cut: Span)
    requires i in spans && SpanOk(spans[i]) && SpanOk(sp) && SpanOk(cut) && Parts(spans[i], sp, cut)
    ensures taken - SpanPages(cut) - OwnPages(spans[i := sp]) == taken - OwnPages(spans)
  {
    PartsPages(spans[i], sp, cut);
    hide SpanPages, SpanOk, Parts;
    var spans' := spans[i := sp];
    forall p
      ensures p in OwnPages(spans) <==> p in OwnPages(spans') || p in SpanPages(cut)
    {
      if p in OwnPages(spans) {
        var j :| j in spans && p in SpanPages(spans[j]);
        assert p in SpanPages(cut) || p in SpanPages(spans'[j]);
      }
      if p in OwnPages(spans') {
        var j :| j in spans' && p in SpanPages(spans'[j]);
        assert p in SpanPages(spans[j]);
      }
      if p in SpanPages(cut) { assert p in SpanPages(spans[i]); }
    }
  }

  /** What a visit to a free area gives back if it can be trimmed. */
  ghost function CutPages(t: Tiles, f: nat): set<nat>
    requires Trimmable(t, f)
  {
    var right := f + t.hdr[f].size;
    if AtRightEnd(t, f) then SpanPages(Span(NewEnd(f), RoundUp(right) - NewEnd(f)))
    else SpanPages(Span(RoundDown(f), NewStart(right) - RoundDown(f)))
  }

  ghost function VisitPages(t: Tiles, f: nat): set<nat> {
    if Trimmable(t, f) then CutPages(t, f) else {}
  }

  /** What visits to all free areas of a page or more give back. */
  ghost function TrimmedPages(t: Tiles): set<nat> {
    set f, p | f in t.areas && Visited(t, f) && p in VisitPages(t, f) :: p
  }

  /** A page that is given back lies inside the free area and the sentinel next to it. */
  lemma CutPagesInside(t: Tiles, f: nat, p: nat)
    requires TilesOk(t) && Trimmable(t, f) && (AtRightEnd(t, f) || NarrowSentinel(t, f)) && p in CutPages(t, f)
    ensures if AtRightEnd(t, f) then f + 24 <= 4096 * p && 4096 * (p + 1) <= f + t.hdr[f].size + 8
            else f <= 4096 * p + 8 && 4096 * (p + 1) + 8 <= f + t.hdr[f].size
  {
    hide TilesOk;
    FreeAreaBounds(t, f);
    Neighbourhood(t, f);
    if AtRightEnd(t, f) { RightEnd(t, f); } else { LeftEnd(t, f); }
  }

  /** A visit gives back its share of the pages that remain to be given back. */
  lemma TrimmedStep(t: Tiles, t': Tiles, f: nat, taken: set<nat>)
    requires Visited(t, f) && VisitDone(t, t', f)
    ensures taken - VisitPages(t, f) - TrimmedPages(t') == taken - TrimmedPages(t)
  {
    hide SpanPages, NewEnd, NewStart, RoundUp, RoundDown, AtLeftEnd, AtRightEnd;
    forall p
      ensures p in TrimmedPages(t) <==> p in VisitPages(t, f) || p in TrimmedPages(t')
    {
      if p in TrimmedPages(t) {
        var x :| x in t.areas && Visited(t, x) && p in VisitPages(t, x);
        if x != f { assert p in VisitPages(t', x); }
      }
      if p in TrimmedPages(t') {
        var x :| x in t'.areas && Visited(t', x) && p in VisitPages(t', x);
        assert p in VisitPages(t, x);
      }
    }
  }

  lemma NoneTrimmed(t: Tiles)
    requires forall x {:trigger Trimmable(t, x)} :: Trimmable(t, x) ==> x in t.hdr && t.hdr[x].size < 4104
    ensures TrimmedPages(t) == {}
  {
    hide Trimmable;
  }

  lemma AllSpans(t: Tiles, i: nat)
    requires TilesOk(t) && i in t.spans
    ensures SpanOk(t.spans[i])
    ensures forall j :: j in t.spans && j != i ==> SpanOk(t.spans[j]) && Apart(t.spans[i], t.spans[j])
  {
    SpansApart(t, i);
    PageBase(t, i);
    forall j | j in t.spans
      ensures SpanOk(t.spans[j])
    {
      PageBase(t, j);
    }
  }

  /** The header before the stretch of a released block is not the one after it. */
  lemma StretchEnd(t: Tiles, a: nat)
    requires Releasing(t, a)
    ensures a in t.hdr && Low(t, a) in t.hdr && Low(t, a) < High(t, a)
    ensures t.hdr[Low(t, a)].left in t.hdr && t.hdr[Low(t, a)].left < Low(t, a)
    ensures a in t.spanOf && t.spanOf[a] in t.spans
  {
    StretchBounds(t, a);
    Neighbourhood(t, Low(t, a));
  }

  // ----- trimming -----

  ghost predicate EndsWith(chain: seq<nat>, tail: seq<nat>) {
    |tail| <= |chain| && chain[|chain| - |tail|..] == tail
  }

  /** After a visit to f, exactly the other areas that could be trimmed still can, and as before. */
  ghost predicate VisitDone(t: Tiles, t': Tiles, f: nat) {
    && !Trimmable(t', f)
    && (forall x {:trigger Trimmable(t', x)} {:trigger Trimmable(t, x)} ::
          x != f && (Trimmable(t, x) || Trimmable(t', x)) ==> SameTrim(t, t', x))
  }

  /** The areas that a pass has still to visit: those of later buckets and the rest of the current chain. */
  ghost predicate StillToVisit(t: Tiles, first: int, bucket: nat, tail: seq<nat>) {
    forall x {:trigger Trimmable(t, x)} ::
      Trimmable(t, x) && 8 < t.hdr[x].size && first <= Freeing(t.hdr[x].size - 8) ==>
        bucket < Freeing(t.hdr[x].size - 8) || (bucket == Freeing(t.hdr[x].size - 8) && x in tail)
  }

  lemma OneVisitLess(t: Tiles, t': Tiles, first: int, bucket: nat, tail: seq<nat>)
    requires tail != [] && StillToVisit(t, first, bucket, tail) && VisitDone(t, t', tail[0])
    ensures StillToVisit(t', first, bucket, tail[1..])
  {
    hide Trimmable, Freeing, AtRightEnd;
    forall x | Trimmable(t', x)
      ensures x != tail[0] && SameTrim(t, t', x) && (x in tail ==> x in tail[1..])
    {
    }
  }

  lemma NothingToTrim(t: Tiles, f: nat)
    requires TilesOk(t) && IsFree(t, f) && !Trimmable(t, f)
    ensures VisitDone(t, t, f)
  {
  }

  /** Unlinking an area, or then filing another one at the head of some chain, keeps what came after the area. */
  lemma DroppedTail(chains: seq<seq<nat>>, chains': seq<seq<nat>>, b: nat, k: nat)
    requires |chains| == 136 && Dropped(chains, chains', b, k)
    ensures |chains'| == 136 && EndsWith(chains'[b], chains[b][k + 1..])
  {
  }

  lemma PushedTail(chains: seq<seq<nat>>, chains': seq<seq<nat>>, c: int, a: nat, b: nat, tail: seq<nat>)
    requires |chains| == 136 && b < 136 && Pushed(chains, chains', c, a) && EndsWith(chains[b], tail)
    ensures |chains'| == 136 && EndsWith(chains'[b], tail)
  {
  }

  lemma TailKept(chain: seq<nat>, k: nat)
    requires k < |chain|
    ensures EndsWith(chain, chain[k + 1..])
  {
  }

  lemma PagesReturned(taken: set<nat>, sp: Span)
    requires SpanOk(sp) && SpanPages(sp) <= taken
    ensures sp.length == 4096 * (|taken| - |taken - SpanPages(sp)|)
  {
    PageRangeSize(sp.base / 4096, sp.length / 4096);
    SubsetSize(taken, SpanPages(sp));
  }

  lemma {:induction false} PageRangeSize(first: nat, n: nat)
    ensures |PageRange(first, n)| == n
  {
    if n > 0 {
      PageRangeSize(first, n - 1);
      var r, last := PageRange(first, n - 1), first + n - 1;
      assert last !in r;
      assert |r + {last}| == |r| + 1;
    }
  }

  /** What trimming the right end leaves. */
  lemma RightTrimmed(t: Tiles, f: nat, freed: nat)
    requires TilesOk(t) && IsFree(t, f) && AtRightEnd(t, f) && freed == RoundUp(f + t.hdr[f].size) - NewEnd(f)
    requires CanTrimRight(t, f, freed)
    ensures f in t.spanOf && t.spanOf[f] in t.spans && freed <= t.spans[t.spanOf[f]].length
    ensures freed + 16 <= t.hdr[f].size <= MAX_SPAN && f != 0
    ensures t.hdr[f].free && FreeAreas(t)[f] == t.hdr[f].size
    ensures var t', i, n := TrimRight(t, f, freed), t.spanOf[f], t.hdr[f].size - freed;
            && TilesOk(t') && VisitDone(t, t', f)
            && t'.hdr == t.hdr[f + n := Header(f, false, 0)][f := Header(t.hdr[f].left, true, n)]
            && t'.spans == t.spans[i := Span(t.spans[i].base, t.spans[i].length - freed)]
            && FreeAreas(t') == (FreeAreas(t) - {f})[f := n]
            && UsedAreas(t') == UsedAreas(t)
  {
    hide TilesOk, AreaOk;
    FiledHeader(t, f);
    TrimRightOk(t, f, freed);
    TrimRightMaps(t, f, freed);
    var t', n := TrimRight(t, f, freed), t.hdr[f].size - freed;
    RightAreaDone(t, f, freed);
    forall x | x != f && (Trimmable(t, x) || Trimmable(t', x))
      ensures SameTrim(t, t', x)
    {
      if Trimmable(t', x) { RightTrimDone(t, f, freed, x); }
      RightTrimOthers(t, f, freed, x);
    }
    assert (FreeAreas(t) - {f})[f := n] == FreeAreas(t)[f := n];
    assert t.hdr[f].(size := n) == Header(t.hdr[f].left, true, n);
  }

  /** The new headers, spans, free areas and blocks after the left end has been trimmed. */
  ghost predicate AfterLeftTrim(t: Tiles, t': Tiles, f: nat, start: nat) {
    && f in t.hdr && f in t.spanOf && t.spanOf[f] in t.spans && f + t.hdr[f].size in t.hdr && f in FreeAreas(t)
    && t.hdr[f].size <= MAX_SPAN && FreeAreas(t)[f] == t.hdr[f].size
    && var i, right := t.spanOf[f], f + t.hdr[f].size;
    && f == t.spans[i].base + 8 < start && start + 8 <= right && right < t.spans[i].Top()
    && var n := right - start - 8;
    && t'.spans == t.spans[i := Span(start, t.spans[i].base + t.spans[i].length - start)]
    && UsedAreas(t') == UsedAreas(t)
    && (n < 16 ==>
          && t'.hdr == t.hdr[start := Header(0, false, 8 + n)][right := t.hdr[right].(left := start)]
          && FreeAreas(t') == FreeAreas(t) - {f})
    && (16 <= n ==>
          && start + 8 !in FreeAreas(t)
          && t'.hdr == t.hdr[start := Header(0, false, 8)][start + 8 := Header(start, true, n)]
                 [right := t.hdr[right].(left := start + 8)]
          && FreeAreas(t') == (FreeAreas(t) - {f})[start + 8 := n])
  }

  lemma LeftTrimmed(t: Tiles, f: nat, start: nat) returns (t': Tiles)
    requires CanTrimLeft(t, f, start) && NarrowSentinel(t, f) && AtLeftEnd(t, f) && !AtRightEnd(t, f)
    requires 8 <= f + t.hdr[f].size && start == NewStart(f + t.hdr[f].size)
    ensures t' == TrimLeft(t, f, start) && TilesOk(t') && AfterLeftTrim(t, t', f, start) && VisitDone(t, t', f)
  {
    hide TilesOk, AreaOk, PageMultiple, NewStart, VisitDone;
    t' := TrimLeft(t, f, start);
    FiledHeader(t, f);
    StartAboveFree(t, f, start);
    TrimLeftKeeps(t, f, start);
    TrimLeftFree(t, f, start);
    TrimLeftUsed(t, f, start);
    LeftOthers(t, f, start);
  }

  lemma LeftBounds(t: Tiles, f: nat)
    requires TilesOk(t) && NarrowSentinel(t, f) && IsFree(t, f) && AtLeftEnd(t, f) && !AtRightEnd(t, f)
    ensures 8 <= f + t.hdr[f].size && RoundDown(f) <= NewStart(f + t.hdr[f].size)
  {
    LeftEnd(t, f);
  }

  lemma LeftDone(t: Tiles, f: nat)
    requires TilesOk(t) && IsFree(t, f) && AtLeftEnd(t, f) && !AtRightEnd(t, f)
    requires 8 <= f + t.hdr[f].size && RoundDown(f) == NewStart(f + t.hdr[f].size)
    ensures !Trimmable(t, f) && VisitDone(t, t, f)
  {
  }

  lemma LeftPlan(t: Tiles, f: nat, start: nat) returns (t': Tiles)
    requires TilesOk(t) && NarrowSentinel(t, f) && IsFree(t, f) && AtLeftEnd(t, f) && !AtRightEnd(t, f)
    requires 8 <= f + t.hdr[f].size && start == NewStart(f + t.hdr[f].size) && RoundDown(f) < start
    ensures CanTrimLeft(t, f, start) && t' == TrimLeft(t, f, start) && TilesOk(t') && AfterLeftTrim(t, t', f, start)
    ensures VisitDone(t, t', f)
    ensures Trimmable(t, f)
    ensures UsedAreas(t') == UsedAreas(t) && f in t.spanOf && t.spanOf[f] in t.spans
    ensures var sp := t.spans[t.spanOf[f]];
            && RoundDown(f) == sp.base && SpanOk(Span(sp.base, start - sp.base))
            && sp.base + sp.length >= start && SpanOk(Span(start, sp.base + sp.length - start))
  {
    hide TilesOk, VisitDone, NewStart, RoundDown, SpanOk, Parts;
    LeftEnd(t, f);
    t' := LeftTrimmed(t, f, start);
  }

  lemma LeftOthers(t: Tiles, f: nat, start: nat)
    requires CanTrimLeft(t, f, start) && AtLeftEnd(t, f) && !AtRightEnd(t, f) && NarrowSentinel(t, f)
    requires 8 <= f + t.hdr[f].size && start == NewStart(f + t.hdr[f].size)
    ensures VisitDone(t, TrimLeft(t, f, start), f)
  {
    hide TilesOk, AreaOk, NewStart;
    var t' := TrimLeft(t, f, start);
    if Trimmable(t', f) { LeftTrimDone(t, f, f); }
    forall x | x != f && (Trimmable(t, x) || Trimmable(t', x))
      ensures SameTrim(t, t', x)
    {
      if Trimmable(t', x) { LeftTrimDone(t, f, x); }
      LeftTrimOthers(t, f, start, x);
    }
  }

  // ----- the calls as sequences of steps -----

  lemma GrowStep(t: Tiles, i: nat, base: nat, length: nat, free: bool)
    requires CanAdd(t, i, base, length, free) && 4096 <= length
    ensures Steps(t, Grow(i, base, length, free), AddSpan(t, i, base, length, free))
  {
  }

  lemma GrowNarrow(t: Tiles, i: nat, base: nat, length: nat)
    requires CanAdd(t, i, base, length, true) && 4096 <= length
    ensures NarrowSentinels(t) ==> NarrowSentinels(AddSpan(t, i, base, length, true))
  {
    hide AddSpan, TilesOk, NarrowSentinels;
    GrowStep(t, i, base, length, true);
    if NarrowSentinels(t) { StaysNarrow(t, Grow(i, base, length, true)); }
  }

  lemma CarveStep(t: Tiles, a: nat, m: nat)
    requires TilesOk(t) && a in FreeAreas(t) && CanSplit(t, a, m, true)
    ensures Steps(t, Step.Carve(a, m), Split(t, a, m, true))
  {
  }

  lemma TakeStep(t: Tiles, a: nat)
    requires TilesOk(t) && a in FreeAreas(t) && a in t.hdr
    ensures Steps(t, Step.TakeWhole(a), Take(t, a))
  {
  }

  lemma CutStep(t: Tiles, a: nat, m: nat)
    requires TilesOk(t) && a in UsedAreas(t) && CanSplit(t, a, m, false)
    ensures Steps(t, Cut(a, m), Split(t, a, m, false))
  {
  }

  lemma ReleaseStep(t: Tiles, a: nat)
    requires Releasing(t, a)
    ensures Steps(t, Release(a), Released(t, a))
  {
  }

  /**
   When releasing block a keeps the sentinels in front of free areas narrow, and when it keeps trimming safe: unless
   it leaves a free stretch behind a wide sentinel, or one there that trimming would cut.
   */
  ghost predicate SentinelsAfterFree(t: Tiles, a: nat, t': Tiles) {
    && Releasing(t, a)
    && (NarrowSentinels(t) ==> (NarrowSentinels(t') <==> OnlyBlock(t, a) || !BehindWide(t, a)))
    && (TrimSafe(t) ==> (TrimSafe(t') <==> OnlyBlock(t, a) || !CutBehindWide(t, a)))
  }

  lemma SentinelsReleased(t: Tiles, a: nat)
    requires Releasing(t, a)
    ensures SentinelsAfterFree(t, a, Released(t, a))
  {
    hide TilesOk, UsedAreas, OnlyBlock, FillsSpan, Released, BehindWide, CutBehindWide, NarrowSentinels, TrimSafe;
    FillsSpanIffOnlyBlock(t, a);
    if NarrowSentinels(t) { ReleaseNarrow(t, a); }
    if TrimSafe(t) { ReleaseTrimSafe(t, a); }
  }

  lemma ReleaseStepOf(t: Tiles, a: nat, t': Tiles)
    requires Runs.Ran(t, Runs.Free(a), [Release(a)], t')
    ensures Steps(t, Release(a), t')
  {
    hide Enabled, Apply;
    assert Runs.ButLast([Release(a)]) == [] && Runs.Last([Release(a)]) == Release(a);
    Runs.NoSteps(t);
  }

  lemma TrimEndStep(t: Tiles, f: nat, freed: nat)
    requires Visited(t, f) && AtRightEnd(t, f) && freed == RoundUp(f + t.hdr[f].size) - NewEnd(f) && 0 < freed
    requires CanTrimRight(t, f, freed)
    ensures freed <= t.spans[t.spanOf[f]].length && Steps(t, Step.TrimEnd(f), TrimRight(t, f, freed))
  {
    hide TilesOk;
  }

  lemma TrimStartStep(t: Tiles, f: nat, start: nat)
    requires Visited(t, f) && AtLeftEnd(t, f) && !AtRightEnd(t, f) && NarrowSentinel(t, f)
    requires start == NewStart(f + t.hdr[f].size) && CanTrimLeft(t, f, start)
    ensures Steps(t, Step.TrimStart(f), TrimLeft(t, f, start))
    ensures HasWidth(TrimLeft(t, f, start), t.spanOf[f], WidthLeft(t, f))
  {
    hide TilesOk, NewStart;
    WidthTrimStart(t, f, start, t.spanOf[f]);
  }

  /** Calls other than Free keep the sentinels in front of free areas narrow. */
  lemma KeepsNarrow(t: Tiles, call: Runs.Call, path: seq<Step>, t': Tiles)
    requires TilesOk(t) && Runs.Ran(t, call, path, t') && !call.Free?
    ensures NarrowSentinels(t) ==> NarrowSentinels(t')
  {
    hide TilesOk, NarrowSentinels, Runs.Does;
    if NarrowSentinels(t) { Runs.CallNarrow(t, call, path); }
  }

  /** Trim steps lead from one heap to the other. */
  ghost predicate TrimPath(t: Tiles, path: seq<Step>, t': Tiles) {
    Runs.Legal(t, path) && t' == Runs.After(t, path) && forall s :: s in path ==> Runs.IsTrim(s)
  }

  lemma NoTrimStep(t: Tiles)
    ensures TrimPath(t, [], t)
  {
    Runs.NoSteps(t);
  }

  lemma OneTrimStep(t: Tiles, s: Step, t': Tiles)
    requires Steps(t, s, t') && Runs.IsTrim(s)
    ensures TrimPath(t, [s], t')
  {
    hide Enabled, Apply;
    Runs.NoSteps(t);
    Runs.OneStepMore(t, [], s);
    assert [] + [s] == [s];
  }

  lemma TrimPathsJoin(t: Tiles, path: seq<Step>, t1: Tiles, more: seq<Step>, t2: Tiles)
    requires TrimPath(t, path, t1) && TrimPath(t1, more, t2)
    ensures TrimPath(t, path + more, t2)
  {
    hide Runs.Legal, Runs.After;
    Runs.PathsJoin(t, path, more);
  }

  lemma TrimPathSafe(t: Tiles, path: seq<Step>, t': Tiles)
    requires TilesOk(t) && TrimSafe(t) && TrimPath(t, path, t')
    ensures TrimSafe(t')
  {
    hide TilesOk, TrimSafe, Runs.Legal, Runs.After;
    Runs.PassStaysSafe(t, path);
  }

  lemma TrimPathDone(t: Tiles, path: seq<Step>, t': Tiles)
    requires TrimPath(t, path, t')
    requires forall x {:trigger Trimmable(t', x)} :: Trimmable(t', x) ==> x in t'.hdr && t'.hdr[x].size < 4104
    ensures Runs.Ran(t, Runs.Trim, path, t')
  {
    hide Runs.Legal, Runs.After, Trimmable;
    Runs.TrimServed(t, path, t');
  }

  lemma SafeAt(t: Tiles, f: nat)
    requires TrimSafe(t) && Visited(t, f) && AtLeftEnd(t, f) && !AtRightEnd(t, f)
    ensures NarrowSentinel(t, f)
  {
    hide AtLeftEnd, AtRightEnd;
    assert LeftVisited(t, f);
  }

  lemma FreeAreaHeaders(t: Tiles, f: nat)
    requires TilesOk(t) && f in FreeAreas(t)
    ensures IsFree(t, f) && f + t.hdr[f].size in t.hdr && t.hdr[f].left in t.hdr
  {
    FreeAreaBounds(t, f);
  }

  lemma PageBucket()
    ensures 0 <= Freeing(4096) < 136
  {
    BucketExists(4096);
  }

  lemma PartsPages(sp: Span, a: Span, b: Span)
    requires SpanOk(sp) && SpanOk(a) && SpanOk(b) && Parts(sp, a, b)
    ensures SpanPages(a) !! SpanPages(b) && SpanPages(sp) == SpanPages(a) + SpanPages(b)
  {
    var i, m, j, n, k, l := sp.base / 4096, sp.length / 4096, a.base / 4096, a.length / 4096, b.base / 4096,
        b.length / 4096;
    assert sp.base == 4096 * i && sp.length == 4096 * m && a.base == 4096 * j && a.length == 4096 * n
        && b.base == 4096 * k && b.length == 4096 * l;
  }

  /** Giving back a part of a span leaves the pages of all others, and of the rest, taken. */
  lemma SpanShrinks(spans: map<nat, Span>, taken: set<nat>, i: nat, sp: Span, gone: Span)
    requires SpansIn(spans, taken) && i in spans && SpanOk(spans[i]) && SpanOk(sp) && SpanOk(gone)
    requires Parts(spans[i], sp, gone)
    requires forall j :: j in spans && j != i ==> SpanOk(spans[j]) && Apart(spans[i], spans[j])
    ensures SpanPages(gone) <= taken && SpanPages(gone) == PageRange(gone.base / 4096, gone.length / 4096)
    ensures SpansIn(spans[i := sp], taken - SpanPages(gone))
    ensures Total(SpanLengths(spans)) == Total(SpanLengths(spans[i := sp])) + gone.length
  {
    hide SpanOk, Apart, PageRange, Total, SpanLengths, Parts;
    PartsPages(spans[i], sp, gone);
    LengthShrinks(spans, i, sp);
    assert sp.length + gone.length == spans[i].length by { PartsLength(spans[i], sp, gone); }
    PagesKept(spans, taken, i, sp, gone);
  }

  lemma PartsLength(sp: Span, a: Span, b: Span)
    requires Parts(sp, a, b)
    ensures a.length + b.length == sp.length
  {
  }

  lemma PagesKept(spans: map<nat, Span>, taken: set<nat>, i: nat, sp: Span, gone: Span)
    requires SpansIn(spans, taken) && i in spans && SpanOk(spans[i])
    requires SpanPages(sp) !! SpanPages(gone) && SpanPages(sp) <= SpanPages(spans[i])
    requires SpanPages(gone) <= SpanPages(spans[i])
    requires forall j :: j in spans && j != i ==> SpanOk(spans[j]) && Apart(spans[i], spans[j])
    ensures SpanPages(gone) <= taken
    ensures SpansIn(spans[i := sp], taken - SpanPages(gone))
  {
    hide SpanOk, Apart, SpanPages;
    assert SpanPages(spans[i]) <= taken;
    forall j | j in spans && j != i
      ensures SpanPages(spans[j]) <= taken - SpanPages(gone)
    {
      assert SpanPages(spans[j]) <= taken;
      ApartIfPagesDiffer(spans[i], spans[j]);
    }
  }

  lemma LengthShrinks(spans: map<nat, Span>, i: nat, sp: Span)
    requires i in spans
    ensures Total(SpanLengths(spans)) + sp.length == Total(SpanLengths(spans[i := sp])) + spans[i].length
  {
    hide Total;
    var m, m' := SpanLengths(spans), SpanLengths(spans[i := sp]);
    TotalRemove(m, i);
    TotalRemove(m', i);
    assert m - {i} == m' - {i};
  }

  // ----- alignment -----

  ghost predicate Aligned(x: nat, alignment: nat) {
    0 < alignment && x % alignment == 0
  }

  lemma CutOk(t: Tiles, a: nat, m: nat)
    requires Releasing(t, a) && InSmallSpan(t, a) && 16 <= m && m % 8 == 0 && m + 16 <= UsedAreas(t)[a]
    ensures a in t.hdr && t.hdr[a].size == UsedAreas(t)[a]
    ensures a in t.spanOf && a + t.hdr[a].size in t.hdr && a + m !in UsedAreas(t)
    ensures CanSplit(t, a, m, false) && TilesOk(Split(t, a, m, false))
    ensures FreeAreas(Split(t, a, m, false)) == FreeAreas(t)
    ensures UsedAreas(Split(t, a, m, false)) == UsedAreas(t)[a := m][a + m := t.hdr[a].size - m]
    ensures Split(t, a, m, false).spans == t.spans
    ensures Split(t, a, m, false).hdr == t.hdr[a + m := Header(a, false, t.hdr[a].size - m)][a := t.hdr[a].(size := m)]
                                              [a + t.hdr[a].size := t.hdr[a + t.hdr[a].size].(left := a + m)]
  {
    BlockInterior(t, a);
    Neighbourhood(t, a);
    hide TilesOk, Split, FreeAreas, UsedAreas;
    SplitOk(t, a, m, false);
    SplitFree(t, a, m, false);
    SplitUsed(t, a, m, false);
    BlockNotFree(t, a);
    NothingInside(t, a, a + m);
    CutHeaders(t, a, m);
  }

  lemma BlockNotFree(t: Tiles, a: nat)
    requires a in UsedAreas(t)
    ensures a in t.hdr && t.hdr[a].size == UsedAreas(t)[a] && FreeAreas(t) - {a} == FreeAreas(t)
    ensures forall x :: x !in t.areas ==> x !in UsedAreas(t)
  {
  }

  lemma CutHeaders(t: Tiles, a: nat, m: nat)
    requires a in t.hdr && a in t.spanOf && 0 < m < t.hdr[a].size && a + t.hdr[a].size in t.hdr && !t.hdr[a].free
    ensures Split(t, a, m, false).spans == t.spans
    ensures Split(t, a, m, false).hdr == t.hdr[a + m := Header(a, false, t.hdr[a].size - m)][a := t.hdr[a].(size := m)]
                                              [a + t.hdr[a].size := t.hdr[a + t.hdr[a].size].(left := a + m)]
  {
    assert t.hdr[a].(size := m) == Header(t.hdr[a].left, false, m);
  }

  lemma SmallAlignment(k: nat, payload: nat)
    requires Pow2(k) < 8 && payload % 8 == 0
    ensures Aligned(payload, Pow2(k))
  {
    if k >= 3 { Pow2Monotone(3, k); }
    assert Pow2(0) == 1 && Pow2(1) == 2 && Pow2(2) == 4 && Pow2(3) == 8;
  }

  lemma Pow2MultipleOf8(k: nat)
    requires 8 <= Pow2(k)
    ensures Pow2(k) % 8 == 0
  {
    assert Pow2(2) == 4;
    if k >= 3 {
      Pow2Add3(k - 3);
    } else {
      Pow2Monotone(k, 2);
    }
  }

  lemma LargeAlignment(k: nat, unaligned: nat)
    requires 8 <= Pow2(k) && unaligned % 8 == 0
    ensures var alignment := Pow2(k);
            var payload := AlignedPayload(unaligned, alignment);
            Aligned(payload, alignment) && unaligned + 24 <= payload < unaligned + 24 + alignment
                && (payload - unaligned) % 8 == 0
  {
    hide Pow2, Aligned;
    var al := Pow2(k);
    Pow2MultipleOf8(k);
    var y := unaligned + 24 + (al - 1);
    var q, payload := y / al, AlignedPayload(unaligned, al);
    Multiple(payload, q, al);
    RoundedDown(y, al);
    MultipleOf8(q, al);
    DifferenceOf8(payload, unaligned);
  }

  lemma RoundedDown(y: nat, al: nat)
    requires 0 < al
    ensures y / al * al <= y < y / al * al + al
  {
    assert y == y / al * al + y % al;
  }

  lemma MultipleOf8(q: nat, al: nat)
    requires al % 8 == 0
    ensures q * al % 8 == 0
  {
    var m := al / 8;
    assert q * al == q * m * 8;
    Multiple(q * al, q * m, 8);
  }

  lemma DifferenceOf8(a: nat, b: nat)
    requires a % 8 == 0 && b % 8 == 0 && b <= a
    ensures (a - b) % 8 == 0
  {
  }

  lemma MulAtLeast(k: int, al: int)
    requires 0 < al
    ensures k >= 1 ==> k * al >= al
    ensures k <= -1 ==> k * al <= -al
  {
    if k >= 1 { assert k * al == (k - 1) * al + al && (k - 1) * al >= 0; }
    if k <= -1 { assert k * al == (k + 1) * al - al && (k + 1) * al <= 0; }
  }

  lemma Cancel(q: int, d: int, al: int, r: nat)
    requires 0 < al && q * al == d * al + r && r < al
    ensures r == 0
  {
    assert (q - d) * al == q * al - d * al;
    MulAtLeast(q - d, al);
  }

  lemma Multiple(x: nat, q: nat, al: nat)
    requires 0 < al && x == q * al
    ensures Aligned(x, al)
  {
    assert x == x / al * al + x % al;
    Cancel(q, x / al, al, x % al);
  }

  /** When no block is found the address computed from NULL is not NULL: the failure is not reported. */
  lemma AlignedPayloadOfNull(alignment: nat)
    requires 0 < alignment
    ensures AlignedPayload(0, alignment) != 0
  {
    var q := (24 + (alignment - 1)) / alignment;
    assert 1 <= q;
    assert alignment <= q * alignment;
  }

  // ----- lists -----

  /**
   The headers after a free area has been cut, as they are written: first the rest, then the header after it, then the
   block.
   */
  ghost function Carved(hdr: map<nat, Header>, head: nat, m: nat): map<nat, Header> {
    if head in hdr && m <= hdr[head].size && head + hdr[head].size in hdr then
      var right := head + hdr[head].size;
      hdr[head + m := Header(head, true, hdr[head].size - m)]
         [right := hdr[right].(left := head + m)]
         [head := Header(hdr[head].left, false, m)]
    else
      hdr
  }

  lemma SplitHeaders(t: Tiles, a: nat, m: nat)
    requires a in t.hdr && a in t.spanOf && 0 < m < t.hdr[a].size && a + t.hdr[a].size in t.hdr
    ensures var t' := Split(t, a, m, true);
            t'.hdr == Carved(t.hdr, a, m) && t'.spans == t.spans && a in t'.spanOf && t'.spanOf[a] == t.spanOf[a]
  {
  }

  lemma FiledHeader(t: Tiles, a: nat)
    requires TilesOk(t) && a in FreeAreas(t)
    ensures a in t.areas && a in t.hdr && t.hdr[a].free && FreeAreas(t)[a] == t.hdr[a].size
    ensures a != 0 && a % 8 == 0 && 16 <= t.hdr[a].size && t.hdr[a].size % 8 == 0 && t.hdr[a].size <= MAX_SPAN
    ensures a + t.hdr[a].size in t.hdr && InSmallSpan(t, a)
  {
    FreeInSmallSpan(t, a);
    Blocks(t, a);
    Neighbourhood(t, a);
  }

  lemma ListsLength(lists: seq<nat>, words: seq<bv32>, link: map<nat, Link>, chains: seq<seq<nat>>, free: map<nat, nat>)
    requires ListsOk(lists, words, link, chains, free)
    ensures |lists| == |chains| == 136 && |words| == 5
    ensures forall i: nat :: 136 <= i ==> !Has(words, i)
  {
  }

  lemma NoSpans(t: Tiles)
    requires t.areas == {} && t.spans == map[]
    ensures TilesOk(t) && FreeAreas(t) == map[] && UsedAreas(t) == map[] && SpanLengths(t.spans) == map[]
  {
  }

  lemma EmptyLists(lists: seq<nat>, words: seq<bv32>, chains: seq<seq<nat>>)
    requires |lists| == |chains| == 136 && |words| == 5
    requires forall b :: 0 <= b < 136 ==> lists[b] == 0 && chains[b] == []
    requires forall w :: 0 <= w < 5 ==> words[w] == 0
    ensures ListsOk(lists, words, map[], chains, map[])
  {
    hide Bit;
    forall i: nat
      ensures !Has(words, i)
    {
      if i / 32 < 5 { ZeroHasNoBits(31 - i % 32); }
    }
  }

  lemma FiledAt(lists: seq<nat>, words: seq<bv32>, link: map<nat, Link>, chains: seq<seq<nat>>, free: map<nat, nat>,
                a: nat)
      returns (k: nat)
    requires ListsOk(lists, words, link, chains, free) && a in free
    ensures 16 <= free[a] && 0 <= Freeing(free[a] - 8) < 136 && |chains| == 136
    ensures k < |chains[Freeing(free[a] - 8)]| && chains[Freeing(free[a] - 8)][k] == a
  {
    hide Has, Freeing;
    assert Filed(chains, free, a);
    k :| 0 <= k < |chains[Freeing(free[a] - 8)]| && chains[Freeing(free[a] - 8)][k] == a;
  }

  lemma RequestRounded(request: nat)
    requires 0 < request && request + 8 <= 4194304
    ensures var c := Allocating(request);
            && 0 <= c.index < 136 && request <= c.rounded <= 4194304 && 8 <= c.rounded && (c.rounded + 8) % 8 == 0
  {
    hide Allocating, BucketFloor;
    RequestHasBucket(request);
    AllocatingIsFirstBucketThatCovers(request);
    FloorAligned(Allocating(request).index);
  }

  /** A large block is long enough exactly when its size with two headers does not end on a page boundary. */
  lemma LargePayload(request: nat)
    requires 0 < request
    ensures request + 8 <= GrowthFor(RoundUp8(request)) - 16 <==> (RoundUp8(request) + 16) % 4096 != 0
  {
    hide RoundUp, RoundUp8;
    RoundUpOf8(RoundUp8(request) + 16);
  }

  lemma RoundUpOf8(s: nat)
    requires s % 8 == 0
    ensures if s % 4096 == 0 then RoundUp(s) == s else s + 8 <= RoundUp(s)
  {
    if s % 4096 == 0 {
      RoundUpUnique(s, s);
    } else {
      PageAligned8(RoundUp(s));
      hide RoundUp;
    }
  }

  /** Every request that is eight bytes short of filling its pages is an example. */
  lemma LargeBlockTooShort()
    ensures GrowthFor(RoundUp8(8388592)) - 16 == 8388592 < 8388592 + 8
  {
  }

  /** The head of any nonempty bucket from the request's bucket on is large enough. */
  lemma HeadFits(lists: seq<nat>, words: seq<bv32>, link: map<nat, Link>, chains: seq<seq<nat>>, free: map<nat, nat>,
                 request: nat, b: nat)
    requires ListsOk(lists, words, link, chains, free) && 0 < request && Allocating(request).index <= b < 136
    requires Has(words, b)
    ensures lists[b] in chains[b] && lists[b] in free && Allocating(request).rounded + 8 <= free[lists[b]]
  {
    hide Has, Allocating, Freeing;
    HeadIsMember(lists, words, link, chains, free, b);
    assert FiledIn(free, chains[b], b);
    AnyInBucketFits(request, free[lists[b]] - 8);
  }

  lemma NothingFits(lists: seq<nat>, words: seq<bv32>, link: map<nat, Link>, chains: seq<seq<nat>>, free: map<nat, nat>,
                    request: nat)
    requires ListsOk(lists, words, link, chains, free) && 0 < request
    requires forall i: nat :: Allocating(request).index <= i ==> !Has(words, i)
    ensures forall a :: a in free ==> free[a] < Allocating(request).rounded + 8
  {
    forall a | a in free
      ensures free[a] < Allocating(request).rounded + 8
    {
      if Allocating(request).rounded + 8 <= free[a] {
        SomethingFits(lists, words, link, chains, free, request, a);
      }
    }
  }

  lemma NoneServe(t: Tiles, rounded: nat)
    requires forall a :: a in FreeAreas(t) ==> FreeAreas(t)[a] < rounded
    ensures forall x {:trigger CanServe(t, rounded, x)} :: !CanServe(t, rounded, x)
  {
    forall x
      ensures !CanServe(t, rounded, x)
    {
      if IsFree(t, x) { assert x in FreeAreas(t); }
    }
  }

  /** The head of the bucket that the search finds is in the first bucket with areas that can serve the request. */
  lemma HeadPicked(lists: seq<nat>, words: seq<bv32>, link: map<nat, Link>, chains: seq<seq<nat>>, t: Tiles,
                   request: nat, b: nat)
    requires ListsOk(lists, words, link, chains, FreeAreas(t)) && 0 < request && Allocating(request).index <= b < 136
    requires Has(words, b)
    requires forall i: nat :: Allocating(request).index <= i < b ==> !Has(words, i)
    ensures Picked(t, Rounded(request), lists[b])
  {
    hide Has, Allocating, Freeing;
    HeadFits(lists, words, link, chains, FreeAreas(t), request, b);
    var head := lists[b];
    assert FiledIn(FreeAreas(t), chains[b], b);
    forall x | CanServe(t, Rounded(request), x)
      ensures b <= Freeing(t.hdr[x].size - 8)
    {
      var k := FiledAt(lists, words, link, chains, FreeAreas(t), x);
      AnyInBucketFits(request, t.hdr[x].size - 8);
      assert Has(words, Freeing(t.hdr[x].size - 8));
    }
  }

  /** A free area that is large enough is in a bucket where the search looks. */
  lemma SomethingFits(lists: seq<nat>, words: seq<bv32>, link: map<nat, Link>, chains: seq<seq<nat>>, free: map<nat,
                      nat>, request: nat, a: nat)
    requires ListsOk(lists, words, link, chains, free) && 0 < request && a in free
    requires Allocating(request).rounded + 8 <= free[a]
    ensures exists i: nat :: Allocating(request).index <= i && Has(words, i)
  {
    hide Has, Allocating, Freeing;
    var k := FiledAt(lists, words, link, chains, free, a);
    AnyInBucketFits(request, free[a] - 8);
    var i := Freeing(free[a] - 8);
    assert Has(words, i);
  }
}
