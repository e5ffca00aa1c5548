/** What each change to the tiling does to the free areas, to the blocks in use and to the spans. */
module AreaMaps {
  import opened Spans
  import opened Tiling

  ghost function Outside(m: map<nat, nat>, lo: nat, hi: nat): map<nat, nat> {
    map x | x in m && !(lo <= x < hi) :: if x in m && !(lo <= x < hi) then m[x] else 0
  }

  /** The entries that do not belong to span i. */
  ghost function NotIn(m: map<nat, nat>, t: Tiles, i: nat): map<nat, nat> {
    map x | x in m && !InSpan(t, x, i) :: if x in m && !InSpan(t, x, i) then m[x] else 0
  }

  lemma Blocks(t: Tiles, x: nat)
    requires TilesOk(t) && x in t.areas
    ensures x in t.hdr && x in t.spanOf && t.spanOf[x] in t.spans
    ensures IsUsed(t, x) <==> Interior(t, x) && !t.hdr[x].free
    ensures t.hdr[x].free ==> Interior(t, x)
    ensures Interior(t, x) ==> 16 <= t.hdr[x].size && x != 0 && t.hdr[x].left != 0 && x % 8 == 0
  {
    assert AreaOk(t, x);
    assert SpanTiled(t, t.spanOf[x]);
    if Interior(t, x) { Neighbourhood(t, x); }
  }

  lemma MergeFree(t: Tiles, lo: nat, hi: nat, free: bool)
    requires CanMerge(t, lo, hi, free)
    ensures FreeAreas(Merge(t, lo, hi, free)) == if free then Outside(FreeAreas(t), lo, hi)[lo := hi - lo]
              else Outside(FreeAreas(t), lo, hi)
  {
    hide TilesOk, IsUsed;
  }

  lemma MergeUsed(t: Tiles, lo: nat, hi: nat, free: bool)
    requires CanMerge(t, lo, hi, free)
    ensures UsedAreas(Merge(t, lo, hi, free)) == if free then Outside(UsedAreas(t), lo, hi)
              else Outside(UsedAreas(t), lo, hi)[lo := hi - lo]
  {
    Blocks(t, lo);
    NotFirst(t, hi);
    hide TilesOk, NotFreeAt;
  }

  /** An area with an area to its left in the same span has a left pointer. */
  lemma NotFirst(t: Tiles, x: nat)
    requires TilesOk(t) && x in t.areas && x in t.hdr && x in t.spanOf && t.spanOf[x] in t.spans
    requires t.spans[t.spanOf[x]].base < x
    ensures t.hdr[x].left != 0
  {
    assert AreaOk(t, x);
    LeftAdjacent(t, x);
    assert SpanTiled(t, t.spanOf[x]);
  }

  lemma SplitFree(t: Tiles, a: nat, m: nat, second: bool)
    requires CanSplit(t, a, m, second)
    ensures a + m !in t.areas
    ensures FreeAreas(Split(t, a, m, second)) == if second then (FreeAreas(t) - {a})[a + m := t.hdr[a].size - m]
              else FreeAreas(t) - {a}
  {
    NothingInside(t, a, a + m);
    hide TilesOk, NotFreeAt;
  }

  lemma SplitUsed(t: Tiles, a: nat, m: nat, second: bool)
    requires CanSplit(t, a, m, second)
    ensures UsedAreas(Split(t, a, m, second)) == if second then UsedAreas(t)[a := m]
              else UsedAreas(t)[a := m][a + m := t.hdr[a].size - m]
  {
    Blocks(t, a);
    Neighbourhood(t, a);
    NotFirst(t, a + t.hdr[a].size);
    NothingInside(t, a, a + m);
    hide TilesOk, NotFreeAt;
  }

  lemma AddSpanApart(t: Tiles, i: nat, base: nat, length: nat, free: bool)
    requires CanAdd(t, i, base, length, free)
    ensures 4096 <= length && forall x :: x in t.areas ==> x < base || base + length <= x
  {
    hide TilesOk;
    forall x | x in t.areas
      ensures x < base || base + length <= x
    {
      AddedAreas(t, i, base, length, free, x);
    }
  }

  lemma AddSpanFree(t: Tiles, i: nat, base: nat, length: nat, free: bool)
    requires CanAdd(t, i, base, length, free)
    ensures 4096 <= length && base + 8 !in t.areas
    ensures FreeAreas(AddSpan(t, i, base, length, free)) == if free then FreeAreas(t)[base + 8 := length - 16]
              else FreeAreas(t)
  {
    AddSpanApart(t, i, base, length, free);
    hide TilesOk, SpanOk, Apart;
  }

  lemma AddSpanUsed(t: Tiles, i: nat, base: nat, length: nat, free: bool)
    requires CanAdd(t, i, base, length, free)
    ensures 4096 <= length && base + 8 !in t.areas
    ensures UsedAreas(AddSpan(t, i, base, length, free)) == if free then UsedAreas(t)
              else UsedAreas(t)[base + 8 := length - 16]
  {
    AddSpanApart(t, i, base, length, free);
    hide TilesOk, SpanOk, Apart;
  }

  lemma RemoveSpanFree(t: Tiles, hdr: map<nat, Header>, i: nat)
    requires forall x :: x in t.areas && !InSpan(t, x, i) ==> x in t.hdr && x in hdr && hdr[x] == t.hdr[x]
    ensures FreeAreas(RemoveSpan(t, hdr, i)) == NotIn(FreeAreas(t), t, i)
  {
  }

  lemma RemoveSpanUsed(t: Tiles, hdr: map<nat, Header>, i: nat)
    requires forall x :: x in t.areas && !InSpan(t, x, i) ==> x in t.hdr && x in hdr && hdr[x] == t.hdr[x]
    ensures UsedAreas(RemoveSpan(t, hdr, i)) == NotIn(UsedAreas(t), t, i)
  {
  }

  lemma TrimRightMaps(t: Tiles, f: nat, freed: nat)
    requires CanTrimRight(t, f, freed)
    ensures freed <= t.spans[t.spanOf[f]].length
    ensures var t' := TrimRight(t, f, freed);
            && FreeAreas(t') == FreeAreas(t)[f := t.hdr[f].size - freed]
            && UsedAreas(t') == UsedAreas(t)
            && SpanLengths(t'.spans) == SpanLengths(t.spans)[t.spanOf[f] := t.spans[t.spanOf[f]].length - freed]
  {
    var n := t.hdr[f].size;
    NothingInside(t, f, f + n - freed);
    Blocks(t, f);
    Neighbourhood(t, f);
    Blocks(t, f + n);
    hide TilesOk, PageMultiple;
  }

  lemma TrimLeftFree(t: Tiles, f: nat, start: nat)
    requires CanTrimLeft(t, f, start) && NarrowSentinel(t, f)
    ensures start + 8 < f + t.hdr[f].size ==> start + 8 !in t.areas
    ensures var n := f + t.hdr[f].size - start - 8;
            FreeAreas(TrimLeft(t, f, start)) == if n < 16 then FreeAreas(t) - {f}
                else (FreeAreas(t) - {f})[start + 8 := n]
  {
    StartAboveFree(t, f, start);
    NothingInside(t, f, start);
    NothingInside(t, f, start + 8);
    Neighbourhood(t, f);
    Blocks(t, t.spans[t.spanOf[f]].base);
    hide TilesOk, PageMultiple, Adjacent;
  }

  lemma TrimLeftUsed(t: Tiles, f: nat, start: nat)
    requires CanTrimLeft(t, f, start) && NarrowSentinel(t, f)
    ensures UsedAreas(TrimLeft(t, f, start)) == UsedAreas(t)
  {
    StartAboveFree(t, f, start);
    NothingInside(t, f, start);
    NothingInside(t, f, start + 8);
    Neighbourhood(t, f);
    Blocks(t, t.spans[t.spanOf[f]].base);
    NotFirst(t, f + t.hdr[f].size);
    hide TilesOk, PageMultiple, Adjacent;
  }

  // ----- turning a free area into a block -----

  /** The free area at a becomes a block as it is. */
  ghost function Take(t: Tiles, a: nat): Tiles
    requires a in t.hdr
  {
    t.(hdr := t.hdr[a := t.hdr[a].(free := false)])
  }

  lemma TakeIsMerge(t: Tiles, a: nat)
    requires TilesOk(t) && a in t.areas && a in t.hdr && t.hdr[a].free
    ensures CanMerge(t, a, a + t.hdr[a].size, false)
    ensures Take(t, a) == Merge(t, a, a + t.hdr[a].size, false)
  {
    FreeInSmallSpan(t, a);
    Neighbourhood(t, a);
    hide TilesOk, SpanTiled, AreaOk;
    var t', m := Take(t, a), Merge(t, a, a + t.hdr[a].size, false);
    assert t'.hdr == m.hdr;
    forall x | x in t.areas
      ensures !(a < x < a + t.hdr[a].size)
    {
      NothingInside(t, a, x);
    }
    assert t'.areas == m.areas;
  }

  lemma OnlyAreaIn(t: Tiles, a: nat)
    requires TilesOk(t) && a in t.areas && a in t.hdr && 0 < t.hdr[a].size
    ensures Outside(FreeAreas(t), a, a + t.hdr[a].size) == FreeAreas(t) - {a}
    ensures Outside(UsedAreas(t), a, a + t.hdr[a].size) == UsedAreas(t) - {a}
  {
    forall x | x in t.areas
      ensures !(a < x < a + t.hdr[a].size)
    {
      NothingInside(t, a, x);
    }
    hide TilesOk, IsUsed;
  }

  lemma TakeOk(t: Tiles, a: nat)
    requires TilesOk(t) && a in FreeAreas(t)
    ensures TilesOk(Take(t, a)) && a !in UsedAreas(t) && 16 <= t.hdr[a].size
    ensures FreeAreas(Take(t, a)) == FreeAreas(t) - {a}
    ensures UsedAreas(Take(t, a)) == UsedAreas(t)[a := t.hdr[a].size]
  {
    hide TilesOk, CanMerge, Merge, Outside;
    var n := t.hdr[a].size;
    Blocks(t, a);
    TakeIsMerge(t, a);
    MergeOk(t, a, a + n, false);
    MergeFree(t, a, a + n, false);
    MergeUsed(t, a, a + n, false);
    OnlyAreaIn(t, a);
    assert (UsedAreas(t) - {a})[a := n] == UsedAreas(t)[a := n];
  }

  /** The first m bytes of the free area at a become a block; the rest stays free. */
  lemma CarveOk(t: Tiles, a: nat, m: nat)
    requires TilesOk(t) && a in FreeAreas(t) && 16 <= m && m + 16 <= t.hdr[a].size && m % 8 == 0
    ensures CanSplit(t, a, m, true) && a + m !in t.areas && a + m !in FreeAreas(t) && a !in UsedAreas(t)
    ensures a in t.spanOf && a + t.hdr[a].size in t.hdr
    ensures TilesOk(Split(t, a, m, true))
    ensures FreeAreas(Split(t, a, m, true)) == (FreeAreas(t) - {a})[a + m := t.hdr[a].size - m]
    ensures UsedAreas(Split(t, a, m, true)) == UsedAreas(t)[a := m]
  {
    FreeInSmallSpan(t, a);
    Neighbourhood(t, a);
    hide TilesOk, Split;
    SplitOk(t, a, m, true);
    SplitFree(t, a, m, true);
    SplitUsed(t, a, m, true);
  }
}
