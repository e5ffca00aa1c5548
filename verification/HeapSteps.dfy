/**
 What a call does to the areas of the heap, as a sequence of small steps; and when a sequence of calls
 keeps every span tiled.
 */
module HeapSteps {
  import opened AreaMaps
  import opened Coalescing
  import opened Pages
  import opened Spans
  import opened Tiling
  import opened Trimming

  datatype Step =
    | Grow(id: nat, base: nat, length: nat, free: bool)
    | TakeWhole(area: nat)
    | Carve(area: nat, bytes: nat)
    | Cut(area: nat, bytes: nat)
    | Release(area: nat)
    | TrimEnd(area: nat)
    | TrimStart(area: nat)

  /** The stretch around block a has become one free area, or its span is gone. */
  ghost function Released(t: Tiles, a: nat): Tiles
    requires Releasing(t, a)
  {
    StretchBounds(t, a);
    var lo, hi := Low(t, a), High(t, a);
    if FillsSpan(t, a) then RemoveSpan(t, t.hdr[hi := t.hdr[hi].(left := lo)], t.spanOf[a]) else Merge(t, lo, hi, true)
  }

  /** How many bytes a visit cuts off the right end. */
  ghost function CutOff(t: Tiles, f: nat): int
    requires f in t.hdr
  {
    RoundUp(f + t.hdr[f].size) - NewEnd(f)
  }

  /** Trimming visits free areas with a payload of a page or more. */
  ghost predicate Visited(t: Tiles, f: nat) {
    IsFree(t, f) && 4104 <= t.hdr[f].size
  }

  /** The guards under which the code takes the step. */
  ghost predicate Enabled(t: Tiles, s: Step) {
    && TilesOk(t)
    && match s
       case Grow(i, base, length, free) => CanAdd(t, i, base, length, free) && 4096 <= length
       case TakeWhole(a) => a in FreeAreas(t) && a in t.hdr
       case Carve(a, m) => a in FreeAreas(t) && CanSplit(t, a, m, true)
       case Cut(a, m) => a in UsedAreas(t) && CanSplit(t, a, m, false)
       case Release(a) => Releasing(t, a)
       case TrimEnd(f) => Visited(t, f) && AtRightEnd(t, f) && CutOff(t, f) > 0 && CanTrimRight(t, f, CutOff(t, f))
       case TrimStart(f) =>
         && Visited(t, f) && AtLeftEnd(t, f) && !AtRightEnd(t, f)
         && CanTrimLeft(t, f, NewStart(f + t.hdr[f].size))
  }

  ghost function Apply(t: Tiles, s: Step): Tiles
    requires Enabled(t, s)
  {
    match s
    case Grow(i, base, length, free) => AddSpan(t, i, base, length, free)
    case TakeWhole(a) => Take(t, a)
    case Carve(a, m) => Split(t, a, m, true)
    case Cut(a, m) => Split(t, a, m, false)
    case Release(a) => Released(t, a)
    case TrimEnd(f) => TrimRight(t, f, CutOff(t, f))
    case TrimStart(f) => TrimLeft(t, f, NewStart(f + t.hdr[f].size))
  }

  ghost predicate Steps(t: Tiles, s: Step, t': Tiles) {
    Enabled(t, s) && t' == Apply(t, s)
  }

  /** The one step that can go wrong is a cut at the left end, behind a sentinel of more than one header. */
  ghost predicate Safe(t: Tiles, s: Step) {
    s.TrimStart? ==> NarrowSentinel(t, s.area)
  }

  /** A step keeps the heap tiled if and only if it is safe. */
  lemma StepExact(t: Tiles, s: Step)
    requires Enabled(t, s)
    ensures TilesOk(Apply(t, s)) <==> Safe(t, s)
  {
    hide TilesOk, FreeAreas, UsedAreas, Split, Merge, AddSpan, TrimRight, TrimLeft, Take, CanAdd, CanSplit,
         CanTrimRight, CanTrimLeft, RemoveSpan;
    match s
    case Grow(i, base, length, free) => AddSpanOk(t, i, base, length, free);
    case TakeWhole(a) => TakeOk(t, a);
    case Carve(a, m) => SplitOk(t, a, m, true);
    case Cut(a, m) => SplitOk(t, a, m, false);
    case Release(a) => ReleasedOk(t, a);
    case TrimEnd(f) => TrimRightOk(t, f, CutOff(t, f));
    case TrimStart(f) => TrimLeftOk(t, f, NewStart(f + t.hdr[f].size));
  }

  lemma ReleasedOk(t: Tiles, a: nat)
    requires Releasing(t, a)
    ensures TilesOk(Released(t, a))
  {
    hide TilesOk, FreeAreas, UsedAreas, FillsSpan, Merge, RemoveSpan, Low, High;
    StretchBounds(t, a);
    var lo, hi := Low(t, a), High(t, a);
    if FillsSpan(t, a) {
      ReleaseRemovesSpan(t, t.hdr[hi := t.hdr[hi].(left := lo)], a);
    } else {
      ReleaseKeepsSpan(t, a);
    }
  }

  // ----- what follows the left sentinels -----

  /** A free area right behind a left sentinel. */
  ghost predicate Front(t: Tiles, f: nat) {
    IsFree(t, f) && AtLeftEnd(t, f)
  }

  /** The same area, behind the same sentinel. */
  ghost predicate SameFront(t: Tiles, t': Tiles, f: nat) {
    && Front(t, f) && f in t'.hdr && t'.hdr[f] == t.hdr[f]
    && (AtRightEnd(t, f) <==> AtRightEnd(t', f))
    && (NarrowSentinel(t, f) <==> NarrowSentinel(t', f))
  }

  /** The sentinel in front of block a's stretch, when the block is released, has more than one header. */
  ghost predicate BehindWide(t: Tiles, a: nat)
    requires Releasing(t, a)
  {
    StretchBounds(t, a);
    AtLeftEnd(t, Low(t, a)) && !NarrowSentinel(t, Low(t, a))
  }

  lemma FrontGrow(t: Tiles, i: nat, base: nat, length: nat, free: bool, f: nat)
    requires CanAdd(t, i, base, length, free) && 4096 <= length && Front(AddSpan(t, i, base, length, free), f)
    ensures var t' := AddSpan(t, i, base, length, free);
            if f == base + 8 then NarrowSentinel(t', f) && AtRightEnd(t', f) else SameFront(t, t', f)
  {
    hide TilesOk, AreaOk;
    if f in t.areas {
      AddedAreas(t, i, base, length, free, f);
      FreeAreaBounds(t, f);
      Neighbourhood(t, f);
      AddedAreas(t, i, base, length, free, t.hdr[f].left);
      AddedAreas(t, i, base, length, free, f + t.hdr[f].size);
    }
  }

  lemma FrontTake(t: Tiles, a: nat, f: nat)
    requires TilesOk(t) && IsFree(t, a) && Front(Take(t, a), f)
    ensures SameFront(t, Take(t, a), f)
  {
    hide TilesOk, AreaOk;
    FreeAreaBounds(t, a);
    FreeAreaBounds(t, f);
    Neighbourhood(t, a);
    Neighbourhood(t, f);
  }

  lemma FrontSplit(t: Tiles, a: nat, m: nat, second: bool, f: nat)
    requires CanSplit(t, a, m, second) && Front(Split(t, a, m, second), f)
    ensures SameFront(t, Split(t, a, m, second), f)
  {
    hide TilesOk, AreaOk;
    Neighbourhood(t, a);
    NothingInside(t, a, a + m);
    if f != a + m {
      FreeAreaBounds(t, f);
      Neighbourhood(t, f);
      NothingInside(t, a, f);
    }
  }

  lemma FrontMerge(t: Tiles, lo: nat, hi: nat, f: nat)
    requires CanMerge(t, lo, hi, true) && Front(Merge(t, lo, hi, true), f) && f != lo
    ensures SameFront(t, Merge(t, lo, hi, true), f)
  {
    hide TilesOk, AreaOk;
    var t' := Merge(t, lo, hi, true);
    FreeAreaBounds(t, f);
    Neighbourhood(t, f);
    Neighbourhood(t, lo);
  }

  lemma FrontRemove(t: Tiles, hdr: map<nat, Header>, i: nat, f: nat)
    requires TilesOk(t) && Front(RemoveSpan(t, hdr, i), f)
    requires forall x :: x in t.areas && x in t.hdr && !InSpan(t, x, i) ==> x in hdr && hdr[x] == t.hdr[x]
    ensures SameFront(t, RemoveSpan(t, hdr, i), f)
  {
    hide TilesOk, AreaOk;
    AreaLocated(t, f);
    FreeAreaBounds(t, f);
    Neighbourhood(t, f);
  }

  lemma FrontRelease(t: Tiles, a: nat, f: nat)
    requires Releasing(t, a) && Front(Released(t, a), f)
    ensures SameFront(t, Released(t, a), f) || (!FillsSpan(t, a) && f == Low(t, a))
  {
    hide TilesOk, FreeAreas, UsedAreas, FillsSpan, Low, High, SameFront, Front;
    StretchBounds(t, a);
    var lo, hi := Low(t, a), High(t, a);
    if FillsSpan(t, a) {
      FrontRemove(t, t.hdr[hi := t.hdr[hi].(left := lo)], t.spanOf[a], f);
    } else if f != lo {
      ReleaseKeepsSpan(t, a);
      FrontMerge(t, lo, hi, f);
    }
  }

  lemma FrontTrimEnd(t: Tiles, g: nat, freed: nat, f: nat)
    requires CanTrimRight(t, g, freed) && freed <= t.spans[t.spanOf[g]].length && Front(TrimRight(t, g, freed), f)
    ensures var t' := TrimRight(t, g, freed);
            if f == g then Front(t, f) && AtRightEnd(t', f) && (NarrowSentinel(t, f) <==> NarrowSentinel(t', f))
                else SameFront(t, t', f)
  {
    hide TilesOk, AreaOk, PageMultiple;
    FreeAreaBounds(t, g);
    Neighbourhood(t, g);
    FreeAreaBounds(t, f);
    Neighbourhood(t, f);
    NothingInside(t, g, f + t.hdr[f].size);
    NothingInside(t, g, t.hdr[f].left);
  }

  lemma FrontTrimStart(t: Tiles, g: nat, start: nat, f: nat)
    requires CanTrimLeft(t, g, start) && NarrowSentinel(t, g) && Front(TrimLeft(t, g, start), f)
    ensures var t' := TrimLeft(t, g, start);
            if f == start + 8 && start + 8 < g + t.hdr[g].size then NarrowSentinel(t', f)
                && t'.hdr[f].size == g + t.hdr[g].size - start - 8
            else SameFront(t, t', f)
  {
    hide TilesOk, AreaOk, PageMultiple;
    FreeAreaBounds(t, g);
    Neighbourhood(t, g);
    StartAboveFree(t, g, start);
    NothingInside(t, g, start);
    NothingInside(t, g, start + 8);
    if f != start + 8 || g + t.hdr[g].size <= start + 8 {
      FreeAreaBounds(t, f);
      Neighbourhood(t, f);
    }
  }

  /** Where a front comes from: it was there before, or the step has put it there. */
  lemma FrontAfter(t: Tiles, s: Step, f: nat)
    requires Enabled(t, s) && Safe(t, s) && Front(Apply(t, s), f)
    ensures var t' := Apply(t, s);
            match s
            case Grow(_, _, _, _) => SameFront(t, t', f) || (NarrowSentinel(t', f) && AtRightEnd(t', f))
            case Release(a) => SameFront(t, t', f) || (!FillsSpan(t, a) && f == Low(t, a))
            case TrimEnd(g) => SameFront(t, t', f)
                || (f == g && Front(t, f) && AtRightEnd(t', f) && (NarrowSentinel(t, f) <==> NarrowSentinel(t', f)))
            case TrimStart(_) => SameFront(t, t', f) || NarrowSentinel(t', f)
            case _ => SameFront(t, t', f)
  {
    hide TilesOk, FreeAreas, UsedAreas, Split, Merge, AddSpan, TrimRight, TrimLeft, Take, CanAdd, CanSplit, RemoveSpan,
         FillsSpan, Front, SameFront, NewStart, NewEnd, RoundUp;
    match s
    case Grow(i, base, length, free) => FrontGrow(t, i, base, length, free, f);
    case TakeWhole(a) => FrontTake(t, a, f) by { assert IsFree(t, a) by { FreeMeansFree(t, a); } }
    case Carve(a, m) => FrontSplit(t, a, m, true, f);
    case Cut(a, m) => FrontSplit(t, a, m, false, f);
    case Release(a) => FrontRelease(t, a, f);
    case TrimEnd(g) => FrontTrimEnd(t, g, CutOff(t, g), f);
    case TrimStart(g) => FrontTrimStart(t, g, NewStart(g + t.hdr[g].size), f);
  }

  lemma FreeMeansFree(t: Tiles, a: nat)
    requires a in FreeAreas(t)
    ensures IsFree(t, a)
  {
  }

  // ----- which steps keep the sentinels narrow -----

  /** Steps other than a release keep the sentinels in front of free areas narrow. */
  lemma StaysNarrow(t: Tiles, s: Step)
    requires Enabled(t, s) && NarrowSentinels(t) && !s.Release?
    ensures NarrowSentinels(Apply(t, s))
  {
    hide TilesOk, Enabled, Apply;
    assert Safe(t, s) by { NarrowIsSafe(t, s); }
    forall f | Front(Apply(t, s), f)
      ensures NarrowSentinel(Apply(t, s), f)
    {
      FrontAfter(t, s, f);
      if SameFront(t, Apply(t, s), f) { assert NarrowSentinel(t, f); }
    }
  }

  lemma NarrowIsSafe(t: Tiles, s: Step)
    requires Enabled(t, s) && NarrowSentinels(t)
    ensures Safe(t, s)
  {
    hide TilesOk, AtRightEnd;
    if s.TrimStart? { assert NarrowSentinel(t, s.area); }
  }

  /** A release keeps them narrow unless the free stretch it makes lies behind a wide one. */
  lemma ReleaseNarrow(t: Tiles, a: nat)
    requires Releasing(t, a) && NarrowSentinels(t)
    ensures NarrowSentinels(Released(t, a)) <==> FillsSpan(t, a) || !BehindWide(t, a)
  {
    hide TilesOk, UsedAreas, FillsSpan, Low, High, Released, AtLeftEnd, AtRightEnd;
    StretchBounds(t, a);
    var t' := Released(t, a);
    forall f | Front(t', f) && !(!FillsSpan(t, a) && f == Low(t, a))
      ensures NarrowSentinel(t', f)
    {
      FrontRelease(t, a, f);
      assert NarrowSentinel(t, f);
    }
    if !FillsSpan(t, a) {
      MergedFront(t, a);
    }
  }

  /** The stretch that a release makes is free, and its sentinel, if it follows one, is as before. */
  lemma MergedFront(t: Tiles, a: nat)
    requires Releasing(t, a) && !FillsSpan(t, a)
    ensures a in t.hdr
    ensures var t', lo := Released(t, a), Low(t, a);
            && IsFree(t', lo) && t'.hdr[lo].size == High(t, a) - lo
            && (AtLeftEnd(t', lo) <==> AtLeftEnd(t, lo)) && (NarrowSentinel(t', lo) <==> NarrowSentinel(t, lo))
  {
    hide TilesOk, AreaOk, UsedAreas, FreeAreas, FillsSpan, Low, High;
    StretchBounds(t, a);
    Neighbourhood(t, Low(t, a));
  }

  // ----- when trimming is safe -----

  /** A front that trimming would cut at its left end. */
  ghost predicate LeftVisited(t: Tiles, f: nat) {
    Front(t, f) && !AtRightEnd(t, f) && Visited(t, f)
  }

  /** No such front has a wide sentinel. */
  ghost predicate TrimSafe(t: Tiles) {
    forall f {:trigger NarrowSentinel(t, f)} :: LeftVisited(t, f) ==> NarrowSentinel(t, f)
  }

  lemma StaysTrimSafe(t: Tiles, s: Step)
    requires Enabled(t, s) && TrimSafe(t) && !s.Release?
    ensures Safe(t, s) && TrimSafe(Apply(t, s))
  {
    hide TilesOk, AtLeftEnd, AtRightEnd, Apply, IsFree;
    assert Safe(t, s);
    hide Enabled;
    forall f | LeftVisited(Apply(t, s), f)
      ensures NarrowSentinel(Apply(t, s), f)
    {
      FrontAfter(t, s, f);
      if SameFront(t, Apply(t, s), f) { assert NarrowSentinel(t, f); }
    }
  }

  /** The stretch around block a lies behind a wide sentinel, and trimming would cut it there. */
  ghost predicate CutBehindWide(t: Tiles, a: nat)
    requires Releasing(t, a)
  {
    StretchBounds(t, a);
    BehindWide(t, a) && t.hdr[High(t, a)].size != 0 && 4104 <= High(t, a) - Low(t, a)
  }

  /** A release keeps trimming safe unless the stretch it makes would be cut behind a wide sentinel. */
  lemma ReleaseTrimSafe(t: Tiles, a: nat)
    requires Releasing(t, a) && TrimSafe(t)
    ensures TrimSafe(Released(t, a)) <==> FillsSpan(t, a) || !CutBehindWide(t, a)
  {
    hide TilesOk, UsedAreas, FillsSpan, Low, High, Released, AtLeftEnd, AtRightEnd;
    StretchBounds(t, a);
    var t' := Released(t, a);
    forall f | LeftVisited(t', f) && !(!FillsSpan(t, a) && f == Low(t, a))
      ensures NarrowSentinel(t', f)
    {
      FrontRelease(t, a, f);
      assert NarrowSentinel(t, f);
    }
    if !FillsSpan(t, a) {
      MergedFront(t, a);
      MergedEnd(t, a);
    }
  }

  lemma MergedEnd(t: Tiles, a: nat)
    requires Releasing(t, a) && !FillsSpan(t, a)
    ensures a in t.hdr && High(t, a) in t.hdr
    ensures AtRightEnd(Released(t, a), Low(t, a)) <==> t.hdr[High(t, a)].size == 0
  {
    hide TilesOk, AreaOk, UsedAreas, FreeAreas, FillsSpan, Low, High;
    StretchBounds(t, a);
  }

  // ----- the widths of the left sentinels -----

  ghost predicate HasWidth(t: Tiles, i: nat, width: nat) {
    i in t.spans && t.spans[i].base in t.hdr && t.hdr[t.spans[i].base].size == width
  }

  /** What the step has made of the left sentinel of span i. */
  ghost predicate WidthFrom(t: Tiles, s: Step, t': Tiles, i: nat) {
    || (exists width :: HasWidth(t, i, width) && HasWidth(t', i, width) && t'.spans[i].base == t.spans[i].base)
    || (s.Grow? && s.id == i && HasWidth(t', i, 8))
    || (s.TrimStart? && Enabled(t, s) && t.spanOf[s.area] == i && HasWidth(t', i, WidthLeft(t, s.area)))
  }

  /** The new sentinel swallows eight bytes if just that many are left over. */
  ghost function WidthLeft(t: Tiles, f: nat): nat
    requires Visited(t, f)
  {
    var right := f + t.hdr[f].size;
    if right - NewStart(right) == 16 then 16 else 8
  }

  lemma WidthAfter(t: Tiles, s: Step, i: nat)
    requires Enabled(t, s) && Safe(t, s) && i in Apply(t, s).spans
    ensures WidthFrom(t, s, Apply(t, s), i)
  {
    hide TilesOk, AreaOk, FreeAreas, UsedAreas, NewStart, NewEnd, RoundUp, PageMultiple, SpanOk;
    var t' := Apply(t, s);
    match s {
      case Grow(id, base, length, free) =>
        if i != id { WidthGrow(t, id, base, length, free, i); }
      case TakeWhole(a) => FreeMeansFree(t, a); WidthTake(t, a, i);
      case Carve(a, m) => WidthSplit(t, a, m, true, i);
      case Cut(a, m) => WidthSplit(t, a, m, false, i);
      case Release(a) => WidthRelease(t, a, i);
      case TrimEnd(f) => WidthTrimEnd(t, f, CutOff(t, f), i);
      case TrimStart(f) => WidthTrimStart(t, f, NewStart(f + t.hdr[f].size), i);
    }
    if SentinelKept(t, t', i) { KeptWidth(t, s, t', i); }
  }

  /** Span i, its left sentinel and the sentinel's width are as before. */
  ghost predicate SentinelKept(t: Tiles, t': Tiles, i: nat) {
    && i in t.spans && i in t'.spans && t'.spans[i].base == t.spans[i].base
    && t.spans[i].base in t.hdr && t.spans[i].base in t'.hdr
    && t'.hdr[t.spans[i].base].size == t.hdr[t.spans[i].base].size
  }

  lemma KeptWidth(t: Tiles, s: Step, t': Tiles, i: nat)
    requires SentinelKept(t, t', i)
    ensures WidthFrom(t, s, t', i)
  {
    var width := t.hdr[t.spans[i].base].size;
    assert HasWidth(t, i, width) && HasWidth(t', i, width);
  }

  /** The left sentinel of a span is an area, and not one strictly inside a span. */
  lemma BaseArea(t: Tiles, i: nat)
    requires TilesOk(t) && i in t.spans
    ensures t.spans[i].base in t.areas && t.spans[i].base in t.hdr && t.spans[i].base in t.spanOf
    ensures t.spanOf[t.spans[i].base] == i
    ensures !Interior(t, t.spans[i].base)
  {
    assert SpanTiled(t, i);
    assert AreaOk(t, t.spans[i].base);
  }

  lemma WidthGrow(t: Tiles, id: nat, base: nat, length: nat, free: bool, i: nat)
    requires CanAdd(t, id, base, length, free) && 4096 <= length && i in t.spans
    ensures SentinelKept(t, AddSpan(t, id, base, length, free), i)
  {
    hide TilesOk, AreaOk;
    BaseArea(t, i);
    AddedAreas(t, id, base, length, free, t.spans[i].base);
  }

  lemma WidthTake(t: Tiles, a: nat, i: nat)
    requires TilesOk(t) && IsFree(t, a) && i in t.spans
    ensures SentinelKept(t, Take(t, a), i)
  {
    hide TilesOk, AreaOk;
    BaseArea(t, i);
  }

  lemma WidthSplit(t: Tiles, a: nat, m: nat, second: bool, i: nat)
    requires CanSplit(t, a, m, second) && i in t.spans
    ensures SentinelKept(t, Split(t, a, m, second), i)
  {
    hide TilesOk, AreaOk;
    BaseArea(t, i);
    Neighbourhood(t, a);
    NothingInside(t, a, a + m);
  }

  lemma WidthRelease(t: Tiles, a: nat, i: nat)
    requires Releasing(t, a) && i in Released(t, a).spans
    ensures SentinelKept(t, Released(t, a), i)
  {
    hide TilesOk, AreaOk, FreeAreas, UsedAreas, FillsSpan, Low, High;
    StretchBounds(t, a);
    BaseArea(t, i);
    Neighbourhood(t, Low(t, a));
  }

  lemma WidthTrimEnd(t: Tiles, f: nat, freed: nat, i: nat)
    requires CanTrimRight(t, f, freed) && freed <= t.spans[t.spanOf[f]].length && i in t.spans
    ensures SentinelKept(t, TrimRight(t, f, freed), i)
  {
    hide TilesOk, AreaOk, PageMultiple;
    BaseArea(t, i);
    Neighbourhood(t, f);
    NothingInside(t, f, f + t.hdr[f].size - freed);
  }

  lemma WidthTrimStart(t: Tiles, f: nat, start: nat, i: nat)
    requires CanTrimLeft(t, f, start) && NarrowSentinel(t, f) && i in t.spans
    ensures var t', right := TrimLeft(t, f, start), f + t.hdr[f].size;
            if i == t.spanOf[f] then HasWidth(t', i, if right - start == 16 then 16 else 8) else SentinelKept(t, t', i)
  {
    hide TilesOk, AreaOk, PageMultiple;
    BaseArea(t, i);
    Neighbourhood(t, f);
    StartAboveFree(t, f, start);
    StartAligned(t, f, start);
    NothingInside(t, f, start);
    NothingInside(t, f, start + 8);
  }
}
