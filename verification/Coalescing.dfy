/** Which areas join when a block is released, and when its whole span is empty. */
module Coalescing {
  import opened AreaMaps
  import opened Spans
  import opened Tiling

  /** The free stretch around block a starts at its left neighbour if that is free, otherwise at a. */
  ghost function Low(t: Tiles, a: nat): nat
    requires a in t.hdr
  {
    if t.hdr[a].left in t.hdr && t.hdr[t.hdr[a].left].free then t.hdr[a].left else a
  }

  ghost function High(t: Tiles, a: nat): nat
    requires a in t.hdr
  {
    var right := a + t.hdr[a].size;
    if right in t.hdr && t.hdr[right].free then right + t.hdr[right].size else right
  }

  ghost predicate Releasing(t: Tiles, a: nat) {
    TilesOk(t) && a in UsedAreas(t)
  }

  lemma BlockInterior(t: Tiles, a: nat)
    requires Releasing(t, a)
    ensures Interior(t, a) && !t.hdr[a].free
  {
    Blocks(t, a);
  }

  /** The stretch lies between two areas of the same span that are not free. */
  lemma StretchBounds(t: Tiles, a: nat)
    requires Releasing(t, a)
    ensures a in t.hdr && a in t.spanOf && t.spanOf[a] in t.spans
    ensures Low(t, a) in t.areas && Low(t, a) in t.hdr && Low(t, a) in t.spanOf && t.spanOf[Low(t, a)] == t.spanOf[a]
    ensures Interior(t, Low(t, a))
    ensures High(t, a) in t.areas && High(t, a) in t.hdr && High(t, a) in t.spanOf
    ensures t.spanOf[High(t, a)] == t.spanOf[a]
    ensures Low(t, a) <= a && Low(t, a) + 16 <= High(t, a)
    ensures NotFreeAt(t, t.hdr[Low(t, a)].left) && NotFreeAt(t, High(t, a))
  {
    BlockInterior(t, a);
    Neighbourhood(t, a);
    var left, right := t.hdr[a].left, a + t.hdr[a].size;
    if t.hdr[left].free { Blocks(t, left); Neighbourhood(t, left); }
    if t.hdr[right].free { Blocks(t, right); Neighbourhood(t, right); }
    hide TilesOk, AreaOk;
  }

  /** The areas in the stretch: block a and its free neighbours. */
  lemma StretchAreas(t: Tiles, a: nat, x: nat)
    requires Releasing(t, a) && x in t.areas && Low(t, a) <= x < High(t, a)
    ensures x == a || (x == t.hdr[a].left && x in t.hdr && t.hdr[x].free)
              || (x == a + t.hdr[a].size && x in t.hdr && t.hdr[x].free)
  {
    BlockInterior(t, a);
    Neighbourhood(t, a);
    var left, right := t.hdr[a].left, a + t.hdr[a].size;
    NothingInside(t, a, x);
    NothingInside(t, left, x);
    NothingInside(t, right, x);
  }

  ghost function FreeNeighbours(t: Tiles, a: nat): set<nat>
    requires a in t.hdr
  {
    (if Low(t, a) < a then {Low(t, a)} else {}) + (if a + t.hdr[a].size < High(t, a) then {a + t.hdr[a].size} else {})
  }

  lemma StretchMaps(t: Tiles, a: nat)
    requires Releasing(t, a)
    ensures a in t.hdr
    ensures Outside(FreeAreas(t), Low(t, a), High(t, a)) == FreeAreas(t) - FreeNeighbours(t, a)
    ensures Outside(UsedAreas(t), Low(t, a), High(t, a)) == UsedAreas(t) - {a}
  {
    StretchBounds(t, a);
    BlockInterior(t, a);
    Neighbourhood(t, a);
    forall x | x in t.areas && Low(t, a) <= x < High(t, a)
      ensures x == a || (x in FreeNeighbours(t, a) && x in t.hdr && t.hdr[x].free)
    {
      StretchAreas(t, a, x);
      Blocks(t, x);
    }
    hide TilesOk;
  }

  /** Both ends of the stretch are sentinels: this is what is tested before pages are returned. */
  ghost predicate FillsSpan(t: Tiles, a: nat) {
    && a in t.hdr && Low(t, a) in t.hdr && High(t, a) in t.hdr
    && var left := t.hdr[Low(t, a)].left;
    left % 4096 == 0 && left in t.hdr && t.hdr[left].left == 0 && !t.hdr[left].free && t.hdr[High(t, a)].size == 0
  }

  ghost predicate OnlyBlock(t: Tiles, a: nat) {
    forall b :: b in UsedAreas(t) && a in t.spanOf && InSpan(t, b, t.spanOf[a]) ==> b == a
  }

  lemma SpanEnds(t: Tiles, a: nat)
    requires Releasing(t, a)
    ensures a in t.spanOf && t.spanOf[a] in t.spans
    ensures var sp := t.spans[t.spanOf[a]];
            FillsSpan(t, a) <==> t.hdr[Low(t, a)].left == sp.base && High(t, a) == sp.Top()
  {
    StretchBounds(t, a);
    Neighbourhood(t, Low(t, a));
    var left, i := t.hdr[Low(t, a)].left, t.spanOf[a];
    PageBase(t, i);
    Blocks(t, left);
    Blocks(t, High(t, a));
    assert AreaOk(t, left) && AreaOk(t, High(t, a));
    hide TilesOk;
  }

  /** The test succeeds exactly when the span holds no other block. */
  lemma FillsSpanIffOnlyBlock(t: Tiles, a: nat)
    requires Releasing(t, a)
    ensures FillsSpan(t, a) <==> OnlyBlock(t, a)
  {
    hide TilesOk, FillsSpan, AreaOk;
    SpanEnds(t, a);
    StretchBounds(t, a);
    if FillsSpan(t, a) {
      forall b | b in UsedAreas(t) && InSpan(t, b, t.spanOf[a])
        ensures b == a
      {
        UsedInFilledSpan(t, a, b);
      }
    } else {
      var b := NeighbourBlock(t, a);
    }
  }

  lemma UsedInFilledSpan(t: Tiles, a: nat, b: nat)
    requires Releasing(t, a) && FillsSpan(t, a) && b in UsedAreas(t) && a in t.spanOf && InSpan(t, b, t.spanOf[a])
    ensures b == a
  {
    hide TilesOk, FillsSpan, AreaOk;
    SpanEnds(t, a);
    StretchBounds(t, a);
    Neighbourhood(t, Low(t, a));
    Blocks(t, b);
    NothingInside(t, t.hdr[Low(t, a)].left, b);
    StretchAreas(t, a, b);
  }

  lemma NeighbourBlock(t: Tiles, a: nat) returns (b: nat)
    requires Releasing(t, a) && !FillsSpan(t, a)
    ensures a in t.spanOf && b in UsedAreas(t) && InSpan(t, b, t.spanOf[a]) && b != a
  {
    SpanEnds(t, a);
    StretchBounds(t, a);
    hide TilesOk, FillsSpan;
    var left, hi, i := t.hdr[Low(t, a)].left, High(t, a), t.spanOf[a];
    Neighbourhood(t, Low(t, a));
    Blocks(t, left);
    Blocks(t, hi);
    AreaLocated(t, left);
    AreaLocated(t, hi);
    PageBase(t, i);
    b := if left != t.spans[i].base then left else hi;
  }

  // ----- the two outcomes -----

  /** A span too large for the buckets holds nothing but the block. */
  lemma LargeSpanFilled(t: Tiles, a: nat)
    requires Releasing(t, a) && !FillsSpan(t, a)
    ensures a in t.spanOf && t.spanOf[a] in t.spans && t.spans[t.spanOf[a]].length <= MAX_SPAN
  {
    SpanEnds(t, a);
    BlockInterior(t, a);
    Neighbourhood(t, a);
    var sp := t.spans[t.spanOf[a]];
    PageBase(t, t.spanOf[a]);
    AreaIsOk(t, sp.base);
    AreaIsOk(t, sp.Top());
    NothingInside(t, sp.base, a);
    if sp.base + 8 in t.areas && sp.base + 8 in t.hdr { NothingInside(t, sp.base + 8, a); }
    hide TilesOk, FillsSpan;
  }

  /** The stretch becomes one free area. */
  lemma ReleaseKeepsSpan(t: Tiles, a: nat)
    requires Releasing(t, a) && !FillsSpan(t, a)
    ensures a in t.hdr
    ensures var lo, hi := Low(t, a), High(t, a);
            && CanMerge(t, lo, hi, true) && 16 <= hi - lo <= MAX_SPAN && 0 < lo
            && TilesOk(Merge(t, lo, hi, true))
            && FreeAreas(Merge(t, lo, hi, true)) == (FreeAreas(t) - FreeNeighbours(t, a))[lo := hi - lo]
            && UsedAreas(Merge(t, lo, hi, true)) == UsedAreas(t) - {a}
            && lo !in FreeAreas(t) - FreeNeighbours(t, a)
  {
    var lo, hi := Low(t, a), High(t, a);
    StretchBounds(t, a);
    LargeSpanFilled(t, a);
    AreaLocated(t, hi);
    StretchMaps(t, a);
    hide TilesOk, FillsSpan, Merge, Low, High, FreeAreas, UsedAreas, FreeNeighbours;
    MergeOk(t, lo, hi, true);
    MergeFree(t, lo, hi, true);
    MergeUsed(t, lo, hi, true);
    assert lo !in Outside(FreeAreas(t), lo, hi);
  }

  lemma FilledSpanAreas(t: Tiles, a: nat, x: nat)
    requires Releasing(t, a) && FillsSpan(t, a) && x in t.areas && x in t.hdr && Interior(t, x)
    ensures a in t.spanOf
    ensures InSpan(t, x, t.spanOf[a]) <==> x == a || x in FreeNeighbours(t, a)
  {
    hide TilesOk, FillsSpan, AreaOk;
    SpanEnds(t, a);
    StretchBounds(t, a);
    BlockInterior(t, a);
    Neighbourhood(t, Low(t, a));
    Neighbourhood(t, a);
    if InSpan(t, x, t.spanOf[a]) {
      NothingInside(t, t.hdr[Low(t, a)].left, x);
      StretchAreas(t, a, x);
    }
  }

  /** The span disappears with all its areas. */
  lemma ReleaseRemovesSpan(t: Tiles, hdr: map<nat, Header>, a: nat)
    requires Releasing(t, a) && FillsSpan(t, a)
    requires forall x :: x in t.hdr && x != High(t, a) ==> x in hdr && hdr[x] == t.hdr[x]
    ensures a in t.spanOf && t.spanOf[a] in t.spans
    ensures var i := t.spanOf[a];
            && TilesOk(RemoveSpan(t, hdr, i))
            && FreeAreas(RemoveSpan(t, hdr, i)) == FreeAreas(t) - FreeNeighbours(t, a)
            && UsedAreas(RemoveSpan(t, hdr, i)) == UsedAreas(t) - {a}
            && t.spans[i].base == t.hdr[Low(t, a)].left
            && t.spans[i].length == High(t, a) - Low(t, a) + t.hdr[t.spans[i].base].size + 8
  {
    SpanEnds(t, a);
    StretchBounds(t, a);
    Neighbourhood(t, Low(t, a));
    hide TilesOk, FillsSpan, AreaOk, FreeNeighbours;
    var i := t.spanOf[a];
    RemoveSpanOk(t, hdr, i);
    forall x | x in t.areas
      ensures x in t.hdr
    {
      AreaLocated(t, x);
    }
    RemoveSpanFree(t, hdr, i);
    RemoveSpanUsed(t, hdr, i);
    ReleasedFree(t, a);
    ReleasedUsed(t, a);
  }

  lemma ReleasedFree(t: Tiles, a: nat)
    requires Releasing(t, a) && FillsSpan(t, a)
    ensures a in t.spanOf
    ensures NotIn(FreeAreas(t), t, t.spanOf[a]) == FreeAreas(t) - FreeNeighbours(t, a)
  {
    BlockInterior(t, a);
    hide TilesOk, FillsSpan, FreeNeighbours, Low, High;
    forall x | x in FreeAreas(t)
      ensures InSpan(t, x, t.spanOf[a]) <==> x in FreeNeighbours(t, a)
    {
      Blocks(t, x);
      FilledSpanAreas(t, a, x);
    }
  }

  lemma ReleasedUsed(t: Tiles, a: nat)
    requires Releasing(t, a) && FillsSpan(t, a)
    ensures a in t.spanOf
    ensures NotIn(UsedAreas(t), t, t.spanOf[a]) == UsedAreas(t) - {a}
  {
    BlockInterior(t, a);
    hide TilesOk, FillsSpan, Low, High;
    forall x | x in UsedAreas(t)
      ensures InSpan(t, x, t.spanOf[a]) <==> x == a
    {
      if InSpan(t, x, t.spanOf[a]) { UsedInFilledSpan(t, a, x); }
    }
  }
}
