/**
 How the compact allocator covers each span of pages with areas. Every area starts with a header that
 holds the address of the area to its left, a tag that says whether it is free, and its size.
 */
module Tiling {

  datatype Header = Header(left: nat, free: bool, size: nat)

  datatype Span = Span(base: nat, length: nat) {
    /** The right sentinel: a header of size 0 in the last eight bytes. */
    function Top(): int { base + length - 8 }
  }

  /** The largest span that the bucketed path asks for: 4 MB and a page. */
  const MAX_SPAN: nat := 4198400

  /**
   The headers in memory; which addresses hold headers of current areas; and the spans they tile. Memory
   may hold stale headers: only those at `areas` count.
   */
  datatype Tiles = Tiles(hdr: map<nat, Header>, areas: set<nat>, spanOf: map<nat, nat>, spans: map<nat, Span>)

  ghost predicate SpanOk(sp: Span) {
    sp.base % 4096 == 0 && sp.length % 4096 == 0 && 0 < sp.base && 0 < sp.length
  }

  ghost predicate Apart(a: Span, b: Span) {
    a.base + a.length <= b.base || b.base + b.length <= a.base
  }

  /** The area at a knows its span. */
  ghost predicate Located(t: Tiles, a: nat) {
    && a in t.hdr && a in t.spanOf && t.spanOf[a] in t.spans
    && t.spans[t.spanOf[a]].base <= a <= t.spans[t.spanOf[a]].Top() && a % 8 == 0
  }

  /** The area at a ends where area r starts, and r's left pointer names a; no two free areas touch. */
  ghost predicate Adjacent(t: Tiles, a: nat, r: nat)
    requires a in t.hdr && a in t.spanOf
  {
    && r in t.areas && r in t.hdr && r in t.spanOf && t.spanOf[r] == t.spanOf[a]
    && t.hdr[r].left == a
    && !(t.hdr[a].free && t.hdr[r].free)
    && (forall x :: x in t.areas ==> !(a < x < r))
  }

  ghost predicate AreaOk(t: Tiles, a: nat) {
    && Located(t, a)
    && var sp, h := t.spans[t.spanOf[a]], t.hdr[a];
    && (a == sp.base ==> h.left == 0 && !h.free && 8 <= h.size)
    && (a == sp.Top() ==> h.size == 0 && !h.free)
    && (sp.base < a < sp.Top() ==> 16 <= h.size)
    && (a < sp.Top() ==> h.size % 8 == 0 && a + h.size <= sp.Top() && Adjacent(t, a, a + h.size))
    && (sp.base < a ==> h.left in t.areas && h.left in t.hdr && h.left < a && h.left + t.hdr[h.left].size == a)
  }

  /** Sentinels at both ends; spans too large for the buckets hold a single block. */
  ghost predicate SpanTiled(t: Tiles, i: nat)
    requires i in t.spans
  {
    var sp := t.spans[i];
    && SpanOk(sp)
    && sp.base in t.areas && sp.base in t.spanOf && t.spanOf[sp.base] == i
    && sp.Top() in t.areas && sp.Top() in t.spanOf && t.spanOf[sp.Top()] == i
    && (sp.length <= MAX_SPAN || SingleBlock(t, sp))
  }

  ghost predicate SingleBlock(t: Tiles, sp: Span) {
    && sp.base in t.hdr && t.hdr[sp.base].size == 8
    && sp.base + 8 in t.hdr && !t.hdr[sp.base + 8].free && t.hdr[sp.base + 8].size == sp.length - 16
  }

  ghost predicate TilesOk(t: Tiles) {
    && (forall i {:trigger SpanTiled(t, i)} :: i in t.spans ==> SpanTiled(t, i))
    && (forall i, j {:trigger Apart(t.spans[i], t.spans[j])} :: i in t.spans && j in t.spans && i != j ==>
           Apart(t.spans[i], t.spans[j]))
    && (forall a {:trigger AreaOk(t, a)} :: a in t.areas ==> AreaOk(t, a))
  }

  ghost predicate IsFree(t: Tiles, a: nat) {
    a in t.areas && a in t.hdr && t.hdr[a].free
  }

  /** The free areas and their sizes. The values are given for every key, 0 outside the domain, as in all maps below. */
  ghost function FreeAreas(t: Tiles): map<nat, nat> {
    map a | a in t.areas && IsFree(t, a) :: if IsFree(t, a) then t.hdr[a].size else 0
  }

  /** A block handed out to a caller: neither free nor a sentinel. */
  ghost predicate IsUsed(t: Tiles, a: nat) {
    a in t.areas && a in t.hdr && !t.hdr[a].free && t.hdr[a].left != 0 && t.hdr[a].size != 0
  }

  ghost function UsedAreas(t: Tiles): map<nat, nat> {
    map a | a in t.areas && IsUsed(t, a) :: if IsUsed(t, a) then t.hdr[a].size else 0
  }

  ghost function SpanLengths(spans: map<nat, Span>): map<nat, nat> {
    map i | i in spans :: if i in spans then spans[i].length else 0
  }

  // ----- what the local conditions add up to -----

  /** The bytes of an area. A right sentinel occupies its header. */
  ghost function Extent(t: Tiles, a: nat): nat
    requires a in t.hdr
  {
    if t.hdr[a].size == 0 then 8 else t.hdr[a].size
  }

  /** Every byte of a span lies in exactly one area of that span. */
  lemma {:induction false} SpanCovered(t: Tiles, i: nat, from: nat, x: nat) returns (a: nat)
    requires TilesOk(t) && i in t.spans && from in t.areas && from in t.spanOf && t.spanOf[from] == i
    requires from <= x < t.spans[i].base + t.spans[i].length
    ensures a in t.areas && a in t.hdr && a in t.spanOf && t.spanOf[a] == i && a <= x < a + Extent(t, a)
    decreases t.spans[i].base + t.spans[i].length - from
  {
    assert AreaOk(t, from);
    if x < from + Extent(t, from) {
      a := from;
    } else {
      assert AreaOk(t, from + t.hdr[from].size);
      a := SpanCovered(t, i, from + t.hdr[from].size, x);
    }
  }

  lemma AreasDisjoint(t: Tiles, a: nat, b: nat)
    requires TilesOk(t) && a in t.areas && b in t.areas && a < b
    ensures a in t.hdr && a + Extent(t, a) <= b
  {
    assert AreaOk(t, a) && AreaOk(t, b);
    var i, j := t.spanOf[a], t.spanOf[b];
    assert SpanTiled(t, i) && SpanTiled(t, j);
    assert i != j ==> Apart(t.spans[i], t.spans[j]);
  }

  // ----- changing the areas between two boundaries -----

  ghost predicate Interior(t: Tiles, a: nat) {
    && a in t.areas && a in t.hdr && a in t.spanOf && t.spanOf[a] in t.spans
    && t.spans[t.spanOf[a]].base < a < t.spans[t.spanOf[a]].Top()
  }

  ghost predicate NotFreeAt(t: Tiles, r: nat) {
    r in t.hdr && !t.hdr[r].free
  }

  /** The same header, location and membership in both tilings. */
  ghost predicate SameAt(t: Tiles, t': Tiles, x: nat) {
    && x in t.areas && x in t'.areas && x in t.hdr && x in t'.hdr && x in t.spanOf && x in t'.spanOf
    && t'.hdr[x] == t.hdr[x] && t'.spanOf[x] == t.spanOf[x]
  }

  /**
   Inside one span the areas from lo up to hi are replaced by others, the last of which starts at `last`;
   hi learns its new left neighbour and everything else stays.
   */
  ghost predicate Refit(t: Tiles, t': Tiles, lo: nat, hi: nat, last: nat) {
    && TilesOk(t) && Interior(t, lo) && t.spans[t.spanOf[lo]].length <= MAX_SPAN
    && lo < hi && hi in t.areas && hi in t.hdr && hi in t.spanOf && t.spanOf[hi] == t.spanOf[lo]
    && t'.spans == t.spans
    && (forall x {:trigger SameAt(t, t', x)} :: x in t.areas && (x < lo || hi < x) ==> SameAt(t, t', x))
    && (forall x :: x in t'.areas && (x < lo || hi <= x) ==> x in t.areas)
    && hi in t'.areas && hi in t'.hdr && hi in t'.spanOf && t'.hdr[hi] == t.hdr[hi].(left := last)
    && t'.spanOf[hi] == t.spanOf[hi]
    && lo in t'.areas && lo in t'.hdr && lo in t'.spanOf && t'.hdr[lo].left == t.hdr[lo].left
    && t'.spanOf[lo] == t.spanOf[lo]
    && lo <= last < hi && last in t'.areas && last in t'.hdr && last + t'.hdr[last].size == hi
    && (t'.hdr[lo].free ==> NotFreeAt(t, t.hdr[lo].left))
    && (t'.hdr[last].free ==> NotFreeAt(t, hi))
    && (forall x {:trigger AreaOk(t', x)} :: x in t'.areas && lo <= x < hi ==> AreaOk(t', x))
  }

  lemma RefitBefore(t: Tiles, t': Tiles, lo: nat, hi: nat, last: nat, x: nat)
    requires Refit(t, t', lo, hi, last) && x in t.areas && x < lo
    ensures AreaOk(t', x)
  {
    assert AreaOk(t, x) && AreaOk(t, lo);
    assert SameAt(t, t', x);
    var sp := t.spans[t.spanOf[x]];
    if sp.base < x { assert SameAt(t, t', t.hdr[x].left); }
    if x < sp.Top() {
      var r := x + t.hdr[x].size;
      assert Adjacent(t, x, r);
      if r < lo { assert SameAt(t, t', r); }
    }
  }

  lemma RefitAfter(t: Tiles, t': Tiles, lo: nat, hi: nat, last: nat, x: nat)
    requires Refit(t, t', lo, hi, last) && x in t.areas && hi <= x
    ensures AreaOk(t', x)
  {
    assert AreaOk(t, x) && AreaOk(t, hi);
    if hi < x { assert SameAt(t, t', x); }
    var sp := t.spans[t.spanOf[x]];
    if x < sp.Top() {
      var r := x + t.hdr[x].size;
      assert Adjacent(t, x, r);
      assert SameAt(t, t', r);
    }
    if hi < x && sp.base < x {
      var l := t.hdr[x].left;
      assert AreaOk(t, l);
      LeftAdjacent(t, x);
      if hi < l { assert SameAt(t, t', l); }
    }
  }

  /** The left neighbour of an area reaches exactly up to it. */
  lemma LeftAdjacent(t: Tiles, x: nat)
    requires TilesOk(t) && x in t.areas && AreaOk(t, x) && t.spans[t.spanOf[x]].base < x
    ensures AreaOk(t, t.hdr[x].left) && t.spanOf[t.hdr[x].left] == t.spanOf[x] && Adjacent(t, t.hdr[x].left, x)
  {
    var l := t.hdr[x].left;
    assert AreaOk(t, l);
    assert SpanTiled(t, t.spanOf[l]);
  }

  lemma RefitSpan(t: Tiles, t': Tiles, lo: nat, hi: nat, last: nat, i: nat)
    requires Refit(t, t', lo, hi, last) && i in t.spans
    ensures SpanTiled(t', i)
  {
    var sp, own := t.spans[i], t.spans[t.spanOf[lo]];
    assert SpanTiled(t, i) && SpanTiled(t, t.spanOf[lo]);
    assert AreaOk(t, hi) && AreaOk(t, sp.base) && AreaOk(t, sp.Top());
    if i == t.spanOf[lo] {
      assert SameAt(t, t', sp.base);
      if hi < sp.Top() { assert SameAt(t, t', sp.Top()); }
    } else {
      assert Apart(sp, own);
      assert SameAt(t, t', sp.base) && SameAt(t, t', sp.Top());
      if sp.length > MAX_SPAN {
        assert Adjacent(t, sp.base, sp.base + 8);
        assert SameAt(t, t', sp.base + 8);
      }
    }
  }

  /** Replacing areas between two boundaries keeps the tiling. */
  lemma RefitOk(t: Tiles, t': Tiles, lo: nat, hi: nat, last: nat)
    requires Refit(t, t', lo, hi, last)
    ensures TilesOk(t')
  {
    hide AreaOk, SpanTiled, SameAt;
    forall i | i in t'.spans
      ensures SpanTiled(t', i)
    {
      RefitSpan(t, t', lo, hi, last, i);
    }
    forall x | x in t'.areas
      ensures AreaOk(t', x)
    {
      if x < lo { RefitBefore(t, t', lo, hi, last, x); }
      if hi <= x { RefitAfter(t, t', lo, hi, last, x); }
    }
  }

  /** The neighbourhood of an interior area. */
  lemma Neighbourhood(t: Tiles, a: nat)
    requires TilesOk(t) && Interior(t, a)
    ensures t.hdr[a].left in t.areas && t.hdr[a].left in t.hdr && t.hdr[a].left in t.spanOf
    ensures t.hdr[a].left + t.hdr[t.hdr[a].left].size == a && 0 < t.hdr[a].left < a
    ensures t.spanOf[t.hdr[a].left] == t.spanOf[a] && a + t.hdr[a].size <= t.spans[t.spanOf[a]].Top()
    ensures Adjacent(t, t.hdr[a].left, a) && Adjacent(t, a, a + t.hdr[a].size)
    ensures 16 <= t.hdr[a].size && t.hdr[a].size % 8 == 0 && a % 8 == 0
  {
    assert AreaOk(t, a);
    LeftAdjacent(t, a);
    assert SpanTiled(t, t.spanOf[a]);
    assert AreaOk(t, a + t.hdr[a].size);
  }

  /** The area lies in a span that the bucketed path made. */
  ghost predicate InSmallSpan(t: Tiles, a: nat) {
    a in t.spanOf && t.spanOf[a] in t.spans && t.spans[t.spanOf[a]].length <= MAX_SPAN
  }

  /** Free areas lie strictly between sentinels, in spans that the bucketed path made. */
  lemma FreeInSmallSpan(t: Tiles, f: nat)
    requires TilesOk(t) && f in t.areas && f in t.hdr && t.hdr[f].free
    ensures Interior(t, f) && InSmallSpan(t, f)
  {
    assert AreaOk(t, f);
    var sp := t.spans[t.spanOf[f]];
    assert SpanTiled(t, t.spanOf[f]);
    assert AreaOk(t, sp.base);
    assert sp.base + 8 in t.areas ==> AreaOk(t, sp.base + 8);
  }

  // ----- splitting an area -----

  /**
   The area at a becomes a block of m bytes followed by another area; the area to the right learns its new neighbour.
   */
  ghost function Split(t: Tiles, a: nat, m: nat, second: bool): Tiles
    requires a in t.hdr && a in t.spanOf && m <= t.hdr[a].size && a + t.hdr[a].size in t.hdr
  {
    var n := t.hdr[a].size;
    Tiles(t.hdr[a := Header(t.hdr[a].left, false, m)]
               [a + n := t.hdr[a + n].(left := a + m)]
               [a + m := Header(a, second, n - m)],
          t.areas + {a + m}, t.spanOf[a + m := t.spanOf[a]], t.spans)
  }

  ghost predicate CanSplit(t: Tiles, a: nat, m: nat, second: bool) {
    && TilesOk(t) && Interior(t, a) && t.spans[t.spanOf[a]].length <= MAX_SPAN
    && 16 <= m && m + 16 <= t.hdr[a].size && m % 8 == 0
    && a + t.hdr[a].size in t.hdr && (second ==> NotFreeAt(t, a + t.hdr[a].size))
  }

  lemma SplitParts(t: Tiles, a: nat, m: nat, second: bool)
    requires CanSplit(t, a, m, second)
    ensures AreaOk(Split(t, a, m, second), a)
    ensures AreaOk(Split(t, a, m, second), a + m)
  {
    hide TilesOk;
    Neighbourhood(t, a);
  }

  lemma SplitElsewhere(t: Tiles, a: nat, m: nat, second: bool, x: nat)
    requires CanSplit(t, a, m, second) && x in t.areas && (x < a || a + t.hdr[a].size < x)
    ensures SameAt(t, Split(t, a, m, second), x)
  {
    assert AreaOk(t, x);
    hide TilesOk, AreaOk;
  }

  lemma SplitOk(t: Tiles, a: nat, m: nat, second: bool)
    requires CanSplit(t, a, m, second)
    ensures TilesOk(Split(t, a, m, second))
  {
    hide TilesOk, AreaOk, SpanTiled, SameAt;
    var t' := Split(t, a, m, second);
    var n := t.hdr[a].size;
    Neighbourhood(t, a);
    SplitParts(t, a, m, second);
    forall x | x in t.areas && (x < a || a + n < x)
      ensures SameAt(t, t', x)
    {
      SplitElsewhere(t, a, m, second, x);
    }
    RefitOk(t, t', a, a + n, a + m);
  }

  // ----- merging areas -----

  /** The areas from lo up to hi become one. */
  ghost function Merge(t: Tiles, lo: nat, hi: nat, free: bool): Tiles
    requires lo in t.hdr && hi in t.hdr && lo < hi
  {
    Tiles(t.hdr[lo := Header(t.hdr[lo].left, free, hi - lo)][hi := t.hdr[hi].(left := lo)],
          (set x | x in t.areas && !(lo < x < hi)), t.spanOf, t.spans)
  }

  ghost predicate CanMerge(t: Tiles, lo: nat, hi: nat, free: bool) {
    && TilesOk(t) && Interior(t, lo) && t.spans[t.spanOf[lo]].length <= MAX_SPAN
    && lo + 16 <= hi && hi in t.areas && hi in t.hdr && hi in t.spanOf && t.spanOf[hi] == t.spanOf[lo]
    && (free ==> NotFreeAt(t, t.hdr[lo].left) && NotFreeAt(t, hi))
  }

  lemma MergedPart(t: Tiles, lo: nat, hi: nat, free: bool)
    requires CanMerge(t, lo, hi, free)
    ensures AreaOk(Merge(t, lo, hi, free), lo)
  {
    assert Located(t, hi) by { assert AreaOk(t, hi); }
    hide TilesOk;
    Neighbourhood(t, lo);
  }

  lemma MergeElsewhere(t: Tiles, lo: nat, hi: nat, free: bool, x: nat)
    requires CanMerge(t, lo, hi, free) && x in t.areas && (x < lo || hi < x)
    ensures SameAt(t, Merge(t, lo, hi, free), x)
  {
    assert AreaOk(t, x);
    hide TilesOk, AreaOk;
  }

  lemma MergeOk(t: Tiles, lo: nat, hi: nat, free: bool)
    requires CanMerge(t, lo, hi, free)
    ensures TilesOk(Merge(t, lo, hi, free))
  {
    hide TilesOk, AreaOk, SpanTiled, SameAt;
    var t' := Merge(t, lo, hi, free);
    Neighbourhood(t, lo);
    MergedPart(t, lo, hi, free);
    forall x | x in t.areas && (x < lo || hi < x)
      ensures SameAt(t, t', x)
    {
      MergeElsewhere(t, lo, hi, free, x);
    }
    RefitOk(t, t', lo, hi, lo);
  }
}
