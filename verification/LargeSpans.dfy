/** Aligned requests that are too large for the buckets: the parts that they leave, and the list that can be missing. */
module LargeSpans {
  import opened Coalescing
  import opened CompactHeap
  import opened HeapRuns
  import opened HeapSteps
  import opened Requests
  import opened SizeClasses
  import opened Spans
  import opened Tiling
  import opened WideSentinels

  /** The part in front of the aligned block that is released at once. */
  function FrontPart(unaligned: nat, alignment: nat): int
    requires 0 < alignment
  {
    AlignedPayload(unaligned, alignment) - unaligned
  }

  /**
   It has a list if and only if it is smaller than what the last bucket can hold; up to 4 MB alignment it always has
   one.
   */
  lemma FrontPartHasList(exponent: nat, unaligned: nat)
    requires 8 <= Pow2(exponent) && unaligned % 8 == 0
    ensures var front := FrontPart(unaligned, Pow2(exponent));
            && 24 <= front && front % 8 == 0
            && (0 <= Freeing(front - 8) < NUMBER_OF_BUCKETS <==> front < 4718600)
            && (Pow2(exponent) <= 4194304 ==> front < 4718600)
  {
    hide Freeing, Pow2, AlignedPayload;
    LargeAlignment(exponent, unaligned);
    BucketExists(FrontPart(unaligned, Pow2(exponent)) - 8);
  }

  /** An alignment of 8 MB whose front part has none: the block got the pages after the first one. */
  lemma FrontPartExample()
    ensures FrontPart(8208, 8388608) == 8380400 && Freeing(8380400 - 8) >= NUMBER_OF_BUCKETS
  {
    hide Freeing;
    BucketExists(8380392);
  }

  /** There is somewhere to put the stretch around block a: its span goes back, or the stretch has a list. */
  ghost predicate HasPlace(t: Tiles, a: nat)
    requires a in t.hdr
  {
    FillsSpan(t, a) || (Low(t, a) + 16 <= High(t, a) && 0 <= Freeing(High(t, a) - Low(t, a) - 8) < NUMBER_OF_BUCKETS)
  }

  /** As long as spans that are longer than the buckets allow hold one block, every release has a place. */
  lemma EveryReleaseHasPlace(t: Tiles, a: nat)
    requires Releasing(t, a)
    ensures a in t.hdr && HasPlace(t, a)
  {
    hide TilesOk, FillsSpan, Freeing, Low, High, UsedAreas;
    StretchBounds(t, a);
    if !FillsSpan(t, a) {
      ReleaseKeepsSpan(t, a);
      BucketExists(High(t, a) - Low(t, a) - 8);
    }
  }

  // ----- a release without a place -----

  /** Initialization, and 5 MB at a multiple of 1024: pages of their own, cut where the aligned block starts. */
  ghost function CutHeap(): Tiles {
    Split(AddSpan(PageHeap(), 1, 8192, 5246976, false), 8200, 1008, false)
  }

  /** The front part is released. */
  ghost function AlignedHeap(): Tiles {
    Merge(CutHeap(), 8200, 9208, true)
  }

  /** And a request for 500 bytes, which is met from the front part. */
  ghost function CrowdedHeap(): Tiles {
    Split(AlignedHeap(), 8200, 520, true)
  }

  lemma AlignedSizes()
    ensures PaddedSize(5242880, 1024) + 8 > 4194304 && GrowthFor(RoundUp8(PaddedSize(5242880, 1024))) == 5246976
    ensures FrontPart(8208, 1024) == 1008 && Rounded(500) == 520
  {
    hide Allocating;
    SmallPowers();
    RoundedTo(500, 31);
  }

  lemma FrontPartReleased()
    ensures 8200 in CutHeap().hdr && Low(CutHeap(), 8200) == 8200 && High(CutHeap(), 8200) == 9208
    ensures !FillsSpan(CutHeap(), 8200)
  {
  }

  lemma AlignedAreas()
    ensures var t := AlignedHeap();
            && t.areas == {4096, 4104, 8184, 8192, 8200, 9208, 5255160}
            && (forall x :: IsFree(t, x) ==> x in {4104, 8200})
            && 4104 in t.hdr && t.hdr[4104] == Header(4096, true, 4080) && 8200 in t.hdr
            && t.hdr[8200] == Header(8192, true, 1008)
            && 9208 in t.hdr && t.hdr[9208] == Header(8200, false, 5245952) && 5255160 in t.hdr
            && t.hdr[5255160] == Header(9208, false, 0)
  {
  }

  lemma FrontPartPicked()
    ensures OneServed(AlignedHeap(), 500, Carve(8200, 520))
  {
    hide AlignedHeap, Freeing, BucketFloor, Allocates, Rounded;
    var t := AlignedHeap();
    AlignedAreas();
    AlignedSizes();
    assert BucketFloor(39) == 1024 by { Floor1024(); }
    FloorBetween(1000, 4072, 39);
    OneWay(t, 500, Carve(8200, 520));
  }

  lemma Floor1024()
    ensures BucketFloor(39) == 1024
  {
    SmallPowers();
  }

  /**
   Releasing the aligned block now: the rest of the front part, which lies before it, belongs to the stretch, so the
   stretch does not start behind the sentinel, and it is larger than what the last bucket can hold.
   */
  lemma MissingListExample()
    ensures 9208 in CrowdedHeap().hdr && !CrowdedHeap().hdr[9208].free && !HasPlace(CrowdedHeap(), 9208)
    ensures Low(CrowdedHeap(), 9208) == 8720 && High(CrowdedHeap(), 9208) == 5255160
  {
    hide AlignedHeap, Freeing;
    AlignedAreas();
    var t := CrowdedHeap();
    assert t.hdr[9208] == Header(8720, false, 5245952) && t.hdr[8720] == Header(8200, true, 488);
    BucketExists(5246432);
  }
}
