/** Which pages can be cut off the ends of a span, and what remains. */
module Trimming {
  import opened AreaMaps
  import opened Pages
  import opened Spans
  import opened Tiling

  /** The area follows a left sentinel. */
  ghost predicate AtLeftEnd(t: Tiles, f: nat) {
    f in t.hdr && t.hdr[f].left in t.hdr && t.hdr[t.hdr[f].left].left == 0 && !t.hdr[t.hdr[f].left].free
  }

  ghost predicate AtRightEnd(t: Tiles, f: nat) {
    f in t.hdr && f + t.hdr[f].size in t.hdr && t.hdr[f + t.hdr[f].size].size == 0
  }

  /** Wherever a free area follows a left sentinel, that sentinel is a single header. */
  ghost predicate NarrowSentinels(t: Tiles) {
    forall f {:trigger NarrowSentinel(t, f)} :: IsFree(t, f) && AtLeftEnd(t, f) ==> NarrowSentinel(t, f)
  }

  /** Two spans that make up a third. */
  ghost predicate Parts(sp: Span, a: Span, b: Span) {
    && a.length + b.length == sp.length
    && ((a.base == sp.base && b.base == sp.base + a.length) || (b.base == sp.base && a.base == sp.base + b.length))
  }

  lemma FreeAreaBounds(t: Tiles, f: nat)
    requires TilesOk(t) && IsFree(t, f)
    ensures Interior(t, f) && InSmallSpan(t, f) && f + t.hdr[f].size in t.hdr && t.hdr[f].left in t.hdr
    ensures var sp := t.spans[t.spanOf[f]];
            && SpanOk(sp) && sp.base in t.hdr && 16 <= t.hdr[f].size && f + t.hdr[f].size <= sp.Top()
            && (AtRightEnd(t, f) <==> f + t.hdr[f].size == sp.Top())
            && (AtLeftEnd(t, f) <==> t.hdr[f].left == sp.base)
  {
    FreeInSmallSpan(t, f);
    Neighbourhood(t, f);
    var i, right := t.spanOf[f], f + t.hdr[f].size;
    PageBase(t, i);
    AreaIsOk(t, right);
    AreaIsOk(t, t.hdr[f].left);
    AreaIsOk(t, t.spans[i].base);
    Blocks(t, right);
    Blocks(t, t.hdr[f].left);
    hide TilesOk;
  }

  // ----- the right end -----

  /**
   Where the span ends after its right end has been trimmed: room for the free area's links and a sentinel is kept.
   */
  function NewEnd(f: nat): nat {
    RoundUp(f + 24)
  }

  lemma RightEnd(t: Tiles, f: nat)
    requires TilesOk(t) && IsFree(t, f) && AtRightEnd(t, f)
    ensures f in t.spanOf && t.spanOf[f] in t.spans
    ensures var sp, right := t.spans[t.spanOf[f]], f + t.hdr[f].size;
            && RoundUp(right) == sp.base + sp.length && NewEnd(f) <= RoundUp(right)
            && (NewEnd(f) < RoundUp(right) ==>
                  var freed := RoundUp(right) - NewEnd(f);
                  && CanTrimRight(t, f, freed) && freed < sp.length
                  && SpanOk(Span(NewEnd(f), freed)) && SpanOk(Span(sp.base, sp.length - freed))
                  && Parts(sp, Span(sp.base, sp.length - freed), Span(NewEnd(f), freed)))
  {
    hide TilesOk, AreaOk;
    FreeAreaBounds(t, f);
    var sp, right := t.spans[t.spanOf[f]], f + t.hdr[f].size;
    EndOfSpan(sp, f);
  }

  lemma EndOfSpan(sp: Span, f: nat)
    requires SpanOk(sp) && sp.base < f && f + 16 <= sp.Top()
    ensures RoundUp(sp.Top()) == sp.base + sp.length && sp.base < NewEnd(f) <= RoundUp(sp.Top())
    ensures f + 24 <= NewEnd(f) && PageMultiple(RoundUp(sp.Top()) - NewEnd(f)) && PageMultiple(NewEnd(f))
    ensures NewEnd(f) < RoundUp(sp.Top()) ==> SpanOk(Span(NewEnd(f), RoundUp(sp.Top()) - NewEnd(f)))
    ensures SpanOk(Span(sp.base, NewEnd(f) - sp.base))
  {
    RoundUpUnique(sp.Top(), sp.base + sp.length);
    RoundUpMono(f + 24, sp.base + sp.length);
    RoundUpUnique(sp.base + sp.length, sp.base + sp.length);
  }

  lemma RoundUpUnique(x: nat, r: nat)
    requires r % 4096 == 0 && x <= r < x + 4096
    ensures RoundUp(x) == r
  {
  }

  // ----- the left end -----

  function NewStart(right: nat): nat
    requires 8 <= right
  {
    RoundDown(right - 8)
  }

  lemma LeftEnd(t: Tiles, f: nat)
    requires TilesOk(t) && IsFree(t, f) && AtLeftEnd(t, f) && !AtRightEnd(t, f) && NarrowSentinel(t, f)
    ensures f in t.spanOf && t.spanOf[f] in t.spans && 8 <= f + t.hdr[f].size
    ensures var sp, right := t.spans[t.spanOf[f]], f + t.hdr[f].size;
            && RoundDown(f) == sp.base && sp.base <= NewStart(right) < sp.base + sp.length
            && (sp.base < NewStart(right) ==>
                  && CanTrimLeft(t, f, NewStart(right))
                  && SpanOk(Span(sp.base, NewStart(right) - sp.base))
                  && SpanOk(Span(NewStart(right), sp.base + sp.length - NewStart(right)))
                  && Parts(sp, Span(NewStart(right), sp.base + sp.length - NewStart(right)),
                         Span(sp.base, NewStart(right) - sp.base)))
  {
    hide TilesOk, AreaOk;
    FreeAreaBounds(t, f);
    Neighbourhood(t, f);
    var sp, right := t.spans[t.spanOf[f]], f + t.hdr[f].size;
    StartOfSpan(sp, f, right);
  }

  lemma StartOfSpan(sp: Span, f: nat, right: nat)
    requires SpanOk(sp) && f == sp.base + 8 && f + 16 <= right < sp.Top()
    ensures RoundDown(f) == sp.base && sp.base <= NewStart(right) < sp.base + sp.length
    ensures NewStart(right) + 8 <= right && PageMultiple(NewStart(right))
    ensures sp.base < NewStart(right) ==>
              && SpanOk(Span(sp.base, NewStart(right) - sp.base))
              && SpanOk(Span(NewStart(right), sp.base + sp.length - NewStart(right)))
  {
    RoundDownUnique(f, sp.base);
    var q := NewStart(right);
    if q < sp.base { NextPage(q, sp.base); }
  }

  lemma RoundDownUnique(x: nat, r: nat)
    requires r % 4096 == 0 && r <= x < r + 4096
    ensures RoundDown(x) == r
  {
  }

  // ----- nothing new to trim -----

  /** Would a visit to the free area cut pages off? */
  ghost predicate Trimmable(t: Tiles, f: nat) {
    && IsFree(t, f) && 8 <= f + t.hdr[f].size
    && if AtRightEnd(t, f) then NewEnd(f) < RoundUp(f + t.hdr[f].size)
       else AtLeftEnd(t, f) && RoundDown(f) < NewStart(f + t.hdr[f].size)
  }

  /** Area x can be trimmed in both heaps, at the same end and by as much. */
  ghost predicate SameTrim(t: Tiles, t': Tiles, x: nat) {
    Trimmable(t, x) && Trimmable(t', x) && t.hdr[x] == t'.hdr[x] && (AtRightEnd(t, x) <==> AtRightEnd(t', x))
  }

  lemma RightTrimDone(t: Tiles, f: nat, freed: nat, x: nat)
    requires TilesOk(t) && IsFree(t, f) && AtRightEnd(t, f) && freed == RoundUp(f + t.hdr[f].size) - NewEnd(f)
    requires CanTrimRight(t, f, freed) && freed <= t.spans[t.spanOf[f]].length && Trimmable(TrimRight(t, f, freed), x)
    ensures x != f && Trimmable(t, x) && t.hdr[x] == TrimRight(t, f, freed).hdr[x]
  {
    RightAreaDone(t, f, freed);
    FreeAreaBounds(t, f);
    FreeAreaBounds(t, x);
    Neighbourhood(t, x);
    NothingInside(t, f, x + t.hdr[x].size);
    NothingInside(t, f, t.hdr[x].left);
    hide TilesOk, NewEnd, NewStart, RoundUp, RoundDown, SpanOk, PageMultiple;
  }

  /** Trimming the right end of a span leaves every other area as trimmable as it was. */
  lemma RightTrimOthers(t: Tiles, f: nat, freed: nat, x: nat)
    requires TilesOk(t) && IsFree(t, f) && AtRightEnd(t, f) && CanTrimRight(t, f, freed)
    requires freed <= t.spans[t.spanOf[f]].length && x != f && Trimmable(t, x)
    ensures SameTrim(t, TrimRight(t, f, freed), x)
  {
    FreeAreaBounds(t, f);
    FreeAreaBounds(t, x);
    Neighbourhood(t, x);
    NothingInside(t, f, x);
    NothingInside(t, f, x + t.hdr[x].size);
    NothingInside(t, f, t.hdr[x].left);
    NothingInside(t, x, f);
    hide TilesOk, NewEnd, NewStart, RoundUp, RoundDown, SpanOk, PageMultiple;
  }

  lemma RightAreaDone(t: Tiles, f: nat, freed: nat)
    requires TilesOk(t) && IsFree(t, f) && AtRightEnd(t, f) && freed == RoundUp(f + t.hdr[f].size) - NewEnd(f)
    requires CanTrimRight(t, f, freed) && freed <= t.spans[t.spanOf[f]].length
    ensures !Trimmable(TrimRight(t, f, freed), f)
  {
    var n := t.hdr[f].size;
    FreeAreaBounds(t, f);
    RightEnd(t, f);
    RoundUpUnique(f + n - freed, NewEnd(f));
    hide TilesOk, RoundUp, RoundDown, NewEnd, NewStart;
  }

  lemma LeftTrimDone(t: Tiles, f: nat, x: nat)
    requires TilesOk(t) && IsFree(t, f) && AtLeftEnd(t, f) && !AtRightEnd(t, f) && NarrowSentinel(t, f)
    requires 8 <= f + t.hdr[f].size && CanTrimLeft(t, f, NewStart(f + t.hdr[f].size))
    requires Trimmable(TrimLeft(t, f, NewStart(f + t.hdr[f].size)), x)
    ensures x != f && Trimmable(t, x) && t.hdr[x] == TrimLeft(t, f, NewStart(f + t.hdr[f].size)).hdr[x]
  {
    var right := f + t.hdr[f].size;
    var start := NewStart(right);
    if x == start + 8 && start + 8 < right {
      NewAreaDone(t, f);
    } else {
      OldAreaLeft(t, f, start, x);
    }
  }

  /** And so does trimming the left end. */
  lemma LeftTrimOthers(t: Tiles, f: nat, start: nat, x: nat)
    requires CanTrimLeft(t, f, start) && NarrowSentinel(t, f) && x != f && Trimmable(t, x)
    ensures SameTrim(t, TrimLeft(t, f, start), x)
  {
    FreeAreaBounds(t, f);
    Neighbourhood(t, f);
    StartAboveFree(t, f, start);
    NothingInside(t, f, start);
    NothingInside(t, f, start + 8);
    FreeAreaBounds(t, x);
    Neighbourhood(t, x);
    hide TilesOk, NewEnd, NewStart, RoundUp, RoundDown, PageMultiple, SpanOk, AreaOk, Adjacent, SpanTiled, InSpan;
  }

  lemma NewAreaDone(t: Tiles, f: nat)
    requires f in t.hdr && 8 <= f + t.hdr[f].size && CanTrimLeft(t, f, NewStart(f + t.hdr[f].size))
    requires NarrowSentinel(t, f)
    requires NewStart(f + t.hdr[f].size) + 8 < f + t.hdr[f].size
    ensures !Trimmable(TrimLeft(t, f, NewStart(f + t.hdr[f].size)), NewStart(f + t.hdr[f].size) + 8)
  {
    var right := f + t.hdr[f].size;
    var start := NewStart(right);
    FreeAreaBounds(t, f);
    Neighbourhood(t, f);
    AreaIsOk(t, right);
    StartAboveFree(t, f, start);
    NothingInside(t, f, start + 8);
    RoundDownUnique(start + 8, start);
    hide TilesOk, RoundUp, RoundDown;
  }

  lemma OldAreaLeft(t: Tiles, f: nat, start: nat, x: nat)
    requires CanTrimLeft(t, f, start) && NarrowSentinel(t, f) && Trimmable(TrimLeft(t, f, start), x)
    requires x != start + 8 || f + t.hdr[f].size <= start + 8
    ensures x != f && Trimmable(t, x) && t.hdr[x] == TrimLeft(t, f, start).hdr[x]
  {
    var t' := TrimLeft(t, f, start);
    FreeAreaBounds(t, f);
    Neighbourhood(t, f);
    StartAboveFree(t, f, start);
    NothingInside(t, f, start);
    NothingInside(t, f, start + 8);
    FreeAreaBounds(t, x);
    Neighbourhood(t, x);
    hide TilesOk, NewEnd, NewStart, RoundUp, RoundDown, PageMultiple, SpanOk;
  }
}
