/** What a request asks for: how it is rounded, by how much the heap grows for it and which free area serves it. */
module Requests {
  import opened HeapSteps
  import opened Numbers
  import opened Pages
  import opened SizeClasses
  import opened Tiling
  import opened Totals

  /** The bytes of pages that a free area of the requested size needs. */
  function GrowthFor(request: nat): nat {
    RoundUp(request + 16)
  }

  /** What is asked for first: an eighth of the heap, within limits. */
  function FirstTry(size: nat, rounded: nat): (first: nat)
    ensures first <= 4194304 && (first == 4194304 || (size / 8 <= first && 4096 <= first && rounded <= first))
    ensures first in {4194304, size / 8, 4096, rounded}
  {
    Min(4194304, Max(size / 8, Max(4096, rounded)))
  }

  function Halved(x: nat, k: nat): nat {
    if k == 0 then x else Halved(x, k - 1) / 2
  }

  /** The bytes of pages that are tried after k failures: an eighth of the heap, within limits, halved k times. */
  function Tried(size: nat, rounded: nat, k: nat): nat {
    RoundUp(16 + Max(rounded, Halved(Min(4194304, Max(size / 8, 4096)), k)))
  }

  /** The heap grows by the first of these for which there are pages. */
  ghost predicate GrownBy(map_: seq<nat>, size: nat, rounded: nat, grown: nat) {
    exists k: nat :: grown == Tried(size, rounded, k) && forall j: nat :: j < k ==>
        !HasRun(map_, Tried(size, rounded, j) / 4096)
  }

  function PaddedSize(request: nat, alignment: nat): nat {
    request + alignment + 24
  }

  /** The address that is returned for the block found: room for a free area and a header is left in front of it. */
  function AlignedPayload(unaligned: nat, alignment: nat): nat
    requires 0 < alignment
  {
    (unaligned + 24 + (alignment - 1)) / alignment * alignment
  }

  /** Requests that the buckets serve, and the bytes that they take with the header. */
  predicate Bucketed(request: nat) {
    0 < request && request + 8 <= 4194304
  }

  function Rounded(request: nat): nat
    requires 0 < request
  {
    Allocating(request).rounded + 8
  }

  ghost predicate CanServe(t: Tiles, rounded: nat, x: nat) {
    IsFree(t, x) && rounded <= t.hdr[x].size && 8 < t.hdr[x].size
  }

  /** Area a is in the first bucket that holds areas which can serve the request. */
  ghost predicate Picked(t: Tiles, rounded: nat, a: nat) {
    && CanServe(t, rounded, a)
    && (forall x {:trigger CanServe(t, rounded, x)} ::
          CanServe(t, rounded, x) ==> Freeing(t.hdr[a].size - 8) <= Freeing(t.hdr[x].size - 8))
  }

  /** The step cuts the request off the area picked, or takes the area as it is when little would remain. */
  ghost predicate TakesFor(t: Tiles, request: nat, s: Step)
    requires 0 < request
  {
    && (s.TakeWhole? || s.Carve?) && Picked(t, Rounded(request), s.area)
    && var leftOver := t.hdr[s.area].size - Rounded(request);
    s == if leftOver >= 16 && leftOver > request / 64 then Carve(s.area, Rounded(request)) else TakeWhole(s.area)
  }

  /** The heap grows because no area can serve the request: by what is asked for first or, failing that, by less. */
  ghost predicate GrowsFor(t: Tiles, rounded: nat, s: Step) {
    && s.Grow? && s.free && (forall x {:trigger CanServe(t, rounded, x)} :: !CanServe(t, rounded, x))
    && exists k: nat :: s.length == Tried(Total(SpanLengths(t.spans)), rounded, k)
  }

  // ----- what is tried -----

  /** What the loop has in hand after k failures asks for the pages that are to be tried then. */
  ghost predicate InHand(size: nat, rounded: nat, k: nat, growby: nat) {
    var m := Min(4194304, Max(size / 8, 4096));
    growby == Max(rounded, Halved(m, k)) || (k == 0 && growby == 4194304 <= rounded)
  }

  lemma FirstInHand(size: nat, rounded: nat)
    ensures InHand(size, rounded, 0, FirstTry(size, rounded))
  {
  }

  lemma NextInHand(size: nat, rounded: nat, k: nat, growby: nat)
    requires InHand(size, rounded, k, growby) && rounded < growby
    ensures InHand(size, rounded, k + 1, Max(growby / 2, rounded))
  {
  }

  lemma InHandTried(size: nat, rounded: nat, k: nat, growby: nat)
    requires InHand(size, rounded, k, growby) && rounded <= 4194312
    ensures GrowthFor(growby) == Tried(size, rounded, k)
  {
    if growby != Max(rounded, Halved(Min(4194304, Max(size / 8, 4096)), k)) {
        RoundUpMono(growby + 16, rounded + 16);
      RoundUpMono(rounded + 16, 4198400);
      assert RoundUp(4194320) == 4198400 == RoundUp(4198400);
    }
  }

  /** With pages for an eighth of the heap, when that is within limits and enough, the heap grows by an eighth. */
  lemma GrowsByAnEighth(map_: seq<nat>, size: nat, rounded: nat, grown: nat)
    requires GrownBy(map_, size, rounded, grown)
    ensures 4096 <= size / 8 <= 4194304 && rounded <= size / 8 && HasRun(map_, RoundUp(size / 8 + 16) / 4096) ==>
              grown == RoundUp(size / 8 + 16)
    ensures grown <= RoundUp(16 + Max(rounded, Min(4194304, Max(size / 8, 4096))))
  {
    hide HasRun, RoundUp;
    var m := Min(4194304, Max(size / 8, 4096));
    var k :| grown == Tried(size, rounded, k) && forall j: nat :: j < k ==>
        !HasRun(map_, Tried(size, rounded, j) / 4096);
    assert k > 0 ==> !HasRun(map_, Tried(size, rounded, 0) / 4096);
    AtMost(m, k);
    RoundUpMono(16 + Max(rounded, Halved(m, k)), 16 + Max(rounded, m));
  }

  lemma NoRunForAnEighth(map_: seq<nat>, size: nat, rounded: nat)
    requires !HasRun(map_, GrowthFor(rounded) / 4096)
    ensures rounded <= size / 8 ==> !HasRun(map_, RoundUp(size / 8 + 16) / 4096)
  {
    hide HasRun, RoundUp;
    if rounded <= size / 8 && HasRun(map_, RoundUp(size / 8 + 16) / 4096) {
      RoundUpMono(rounded + 16, size / 8 + 16);
      ShorterRun(map_, RoundUp(size / 8 + 16) / 4096, GrowthFor(rounded) / 4096);
    }
  }

  lemma {:induction false} AtMost(m: nat, k: nat)
    ensures Halved(m, k) <= m
  {
    if k > 0 { AtMost(m, k - 1); }
  }
}
