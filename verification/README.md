# Verified memory management and message passing of the Dartino VM

This project models, in Dafny, the parts of the Dartino SDK that hold its hardest invariants, and proves
them for all inputs, all reachable states or all interleavings.

| files | what they model |
|---|---|
| `Bits`, `GcHeap`, `Plan`, `PlanSteps`, `PlanTheorems`, `PlanFullness`, `Planner` | the backtracking planner that assigns compaction destinations from mark bits, a cumulative table and recorded object starts |
| `Compaction`, `CompactedSpace`, `Compactor` | the compacting visitor that moves the objects and redirects their pointers, in place |
| `MarkBits`, `Marking`, `Marker` | marking with a bounded stack that may overflow |
| `Survivors`, `Collector` | a whole mark-compact collection, and why it preserves the reachable object graph |
| `ChunkLists` | the free list of the old space |
| `Pages` | the page arena with its two first-fit searches |
| `SizeClasses`, `BucketBits`, `FreeLists`, `Totals`, `Tiling`, `Spans`, `AreaMaps`, `Coalescing`, `Trimming`, `HeapTotals`, `Requests`, `CompactHeap` | the compact malloc: boundary tags, bucketed free lists, growth, coalescing, aligned allocation, trimming |
| `HeapSteps`, `HeapRuns`, `WideSentinels`, `LargeSpans` | sequences of calls to the compact malloc: when the heap stays tiled, a sequence that breaks it, and one that needs a free list that does not exist |
| `Chains`, `Numbers` | facts about linked lists and numbers that several components share |
| `WaitLists`, `Monitor`, `MonitorRuns`, `MonitorCalls`, `MonitorLists` | the CMSIS monitor; the monitor for LK uses the same algorithm |
| `Mailbox`, `MailboxRuns` | the lock-free mailbox |
| `Links` | process links and monitors |
| `CircularBuffer` | the circular byte buffer |

How the pieces fit together:

- State that the source updates in place is a class whose methods have the branches and loops of the source.
  The invariants and the effect of each step are functions and predicates on values (`Tiles`, `Space`, `Queue`,
  `Links`, `State`); the methods are proved against them, and the theorems are about them.
- The planner's invariant is stated with a sequence of cuts: destination chunk h receives the live objects that
  start between cut h and cut h + 1. `PlanTheorems` derives from it what the compactor relies on, `PlanFullness` says how
  full a chunk is when the planner leaves it, and `Compactor` shows that the visitor's bump pointer follows the plan.
- `Heap.Valid()` of the compact malloc says that the headers tile every span, that lists, bitmap and tags
  describe the same free areas, that `remaining` is the sum of the free areas and `size` the sum of the spans,
  and that the spans are made of pages which the arena has handed out. `Heap.Used()` maps each live block to its size;
  `Heap.PagesOfOthers()` are the pages that the arena has handed out to others, and no method changes them.
  The methods also return, as a ghost, the steps they took; `HeapRuns` reasons about sequences of calls in these terms.
- The monitor and the mailbox are state machines over atomic steps of any number of threads. `Run` ranges over
  all interleavings. What a run has done is also told from its steps alone (`ToldBy`, `Sent`, `Advances`), and the
  states are proved to agree. The list operations that the steps perform are also given as methods on pointers; `MonitorLists`
  shows that the two agree.

Where the code does less than one might expect, the model keeps the code and states the exact condition:

- A block from the large path holds the requested bytes if and only if the rounded request plus two headers is not a
  multiple of the page size (`LargePayload`; `LargeBlockTooShort` is an example).
- The left branch of trimming keeps the heap tiled if and only if the left sentinel is one header wide
  (`TrimLeftOk`). The branch itself makes a sentinel two headers wide when eight bytes are left over. A later release
  can then leave a free area behind it that the next trim cuts. So over any sequence of calls the heap stays tiled
  if and only if trimming is only called while no such area exists (`TiledIffTrimmedSafely`); `Free` says when it makes
  one, and `WideSentinelExample` is a sequence of ten calls that breaks the heap.
- From alignment 8 on an aligned allocation whose inner allocation fails returns an address near zero instead of NULL
  (`Memalign` states this as an equivalence).
- A free payload has a bucket if and only if it is below 4718592 bytes (`BucketExists`); spans of the large path can be
  longer. While they hold a single block, every release has somewhere to go (`EveryReleaseHasPlace`). An aligned request
  on the large path puts a second area into such a span: its front part has a bucket if it is small enough
  (`FrontPartHasList`), but a later release of the aligned block may not (`MissingListExample`).
- The planner of the compactor goes past the end of the destination list when the last chunk is full. It does so only if
  the live objects left do not fit there, and never if each destination chunk is as large as the source chunk at its
  position (`CalculateObjectDestinations`), as it is when a space is compacted into its own chunks.
- The comment above the bucket array of the old space's free list speaks of chunks larger than 2^(i+1); the code files a
  chunk of exactly that size in bucket i too, and the model follows the code.

Addresses of the collected heap are counted in words, those of the compact malloc in bytes. The compact malloc is
modelled for a 32-bit target: headers of 8 bytes, free areas of at least 16, pages of 4096.

## Model

| member | source | states |
|---|---|---|
| `Bits.PopCountIsOnes` | src/vm/gc_metadata.h:366-377 | on every 32-bit word the branch-free sum of pairs, nibbles and bytes equals the number of set bits counted one by one |
| `Bits.CountBelow` | src/vm/gc_metadata.h:293-300 | masking off the bits at and above a position and counting gives the number of marks to the left of that position |
| `GcHeap.CountIsLive` | src/vm/gc_metadata.h:264-291 | between two object boundaries of a chunk, the number of mark bits equals the sum of the sizes of the live objects: the reason the bitmap can stand in for the objects |
| `GcHeap.CountAtMostLive` | src/vm/gc_metadata.cc:122-137 | at any position, inside an object or not, the marks counted so far never exceed the live words started so far, and at the chunk end they are equal |
| `Plan.DestInFilled` | src/vm/gc_metadata.cc:122-137 | where no overflow occurred, table entry plus marks in the partial line is the base plus the live words before the object, for every object boundary |
| `Plan.OverflowingObject` | src/vm/gc_metadata.cc:138-160 | when the table runs past the destination limit, some live object that starts in the stretch really does not fit |
| `Plan.NoOverflowAtHome` | src/vm/gc_metadata.cc:138-153 | a destination chunk at least as large as the source chunk at its position never overflows from that chunk, so stepping to a next destination chunk is always possible |
| `Plan.RoomyAtHome` | src/vm/object_memory_mark_sweep.cc:229-242 | a space always has that much room in its own chunks |
| `Plan.StopsInsideTable` | src/vm/gc_metadata.cc:162-171 | the forward walk from a line that fits stops at the first live object that does not fit, and that object lies in a later line the table already covers |
| `Plan.BlackAfterCut` | src/vm/gc_metadata.cc:180-195 | after the overhanging tail is zapped the marks from the cut on describe exactly the live objects that start at or after the cut |
| `Plan.ZapKeepsAgreement` | src/vm/gc_metadata.cc:180-195 | zapping the tail keeps every object start marked if and only if the object is live, in every chunk |
| `PlanSteps.StretchDone` | src/vm/gc_metadata.cc:125-131 | if the rest of the source chunk fits, the plan extends over it and the next free destination is the base plus all its marks |
| `PlanSteps.StretchSkipped` | src/vm/gc_metadata.cc:144-153 | if not even the first line fits, closing the destination chunk where it stood keeps everything planned so far |
| `PlanSteps.StretchCut` | src/vm/gc_metadata.cc:162-197 | closing the destination after the last object that fits, zapping its overhang and restarting at the cut keeps everything planned so far and sets up the next stretch |
| `PlanSteps.OutOfChunks` | src/vm/gc_metadata.h:202-206 | an overflow in the last destination chunk means that the live objects left in the source chunk do not fit, and that some destination chunk is smaller than the source chunk at its position |
| `PlanTheorems.PlanBecomesFinal` | src/vm/object_memory_mark_sweep.cc:229-242 | for any list of destination chunks: after the last source chunk, setting the remaining compaction tops yields a complete plan, in which every destination chunk is packed up to its top with the live objects between two cuts |
| `PlanTheorems.PlacedInOneChunk` | src/vm/gc_metadata.cc:115-198 | every live object is placed wholly inside one destination chunk, below its compaction top and its usable end, at chunk start plus live words since the cut |
| `PlanTheorems.DestinationsInOrder` | src/vm/gc_metadata.cc:115-198 | destination ranges of live objects are disjoint and in source order, for the own chunks and for any ascending list of destination chunks |
| `PlanTheorems.DestinationsMoveDown` | src/vm/gc_metadata.cc:115-198 | no live object moves up, so moving in address order never overwrites an object not yet moved; the same for any list of destination chunks that are as large as the source chunks and lie no higher |
| `PlanTheorems.NoWordsLost` | src/vm/gc_metadata.cc:115-198 | the words packed below the compaction tops of the first n chunks are exactly the live words before cut n: sliding leaves no gap and loses nothing |
| `PlanFullness.CutIsFull` | src/vm/gc_metadata.cc:162-178 | when the walk stopped at an object that does not fit, the chunk filled up to the cut has no room for the live objects of the next line |
| `PlanFullness.SkipIsTight` | src/vm/gc_metadata.cc:138-153 | when stepping back finds no line, no line of the source chunk with a recorded start fits behind what the chunk holds |
| `PlanFullness.FirstLineStays` | src/vm/gc_metadata.cc:115-160 | in every finished plan: a destination chunk is not closed at the start of a source chunk if the live objects that start in the first line there would have fitted |
| `Planner.GcMetadata.IsMarked` | src/vm/gc_metadata.h:225-230 | the masked load tells whether the bit of that heap word is set |
| `Planner.GcMetadata.GetDestination` | src/vm/gc_metadata.h:293-300 | table entry plus count of marks to the left, the value all destination theorems are about |
| `Planner.GcMetadata.EndOfDestinationOfLastLiveObjectStartingBefore` | src/vm/gc_metadata.cc:200-216 | finds the last live object that starts before the limit and returns its end in source and destination; none only if no live object starts in the range walked |
| `Planner.GcMetadata.LastLineThatFits` | src/vm/gc_metadata.cc:218-237 | finds the first live object that does not fit, or the sentinel; every live object before it fits |
| `Planner.GcMetadata.FillTable` | src/vm/gc_metadata.cc:125-137 | each table entry is the base plus the marks before its line; stops exactly at the source limit or on overflow, and touches no other entry |
| `Planner.GcMetadata.StepBack` | src/vm/gc_metadata.cc:144-160 | stops at the last line with a recorded start whose last live object fits, or at the start of the stretch if there is none: every recorded line after it is too long |
| `Planner.GcMetadata.ZapTail` | src/vm/gc_metadata.cc:180-195 | clears exactly the marks of the words from the cut to the end of the moved object |
| `Planner.GcMetadata.PlanStretch` | src/vm/gc_metadata.cc:122-197 | one pass of the planner, restart included, for any list of destination chunks: terminates, extends the plan to the chunk end, moves on by one destination chunk, or finds that the rest does not fit into the last one; never changes a mark outside the source chunk. A chunk is left only when it is full: after a cut the next line would not fit, and without one no line of the stretch with a recorded start would |
| `Planner.GcMetadata.CutStretch` | src/vm/gc_metadata.cc:162-197 | cuts the stretch after the last line that fits with the plan intact; the next line would not fit |
| `Planner.GcMetadata.FindCut` | src/vm/gc_metadata.cc:162-175 | the cut is at a line boundary after a live object that fits, with less than one line of overhang, and a live object in the line after the cut does not fit |
| `Planner.GcMetadata.CalculateObjectDestinations` | src/vm/gc_metadata.cc:115-198 | for every source chunk and every list of destination chunks the planner terminates without disturbing earlier placements: with all live objects of the chunk placed, or out of chunks because the live objects left do not fit into the last one; never the latter where each destination chunk is as large as the source chunk at its position. Every chunk it leaves is full in the sense of `PlanStretch` |
| `Planner.GcMetadata.ComputeCompactionDestinations` | src/vm/object_memory_mark_sweep.cc:229-242 | planning a whole space into any list of destination chunks ends with a complete plan or with the last chunk full and everything before that placed; for the own chunks enough room is a consequence, not an assumption; every chunk but the last one used is full in the sense of `PlanStretch` |
| `Compaction.VisitArrives` | src/vm/object_memory_mark_sweep.cc:457-465 | the bump pointer of the visitor stands exactly at the planned destination when an object fits, which the source asserts |
| `Compaction.VisitMovesOn` | src/vm/object_memory_mark_sweep.cc:459-463 | when the object does not fit below the compaction top, the plan has put it into a later chunk and the visitor may step on |
| `Compaction.MoveOne` | src/vm/object_memory_mark_sweep.cc:466-482 | moving one object disturbs neither the objects already moved nor those still to come |
| `Compaction.NextMarkIsObject` | src/vm/object_memory_mark_sweep.cc:437-455 | the first marked word after a dead object is the next live object, or the sentinel: skipping by mark bits skips no live object |
| `Compaction.RecordPlaced` | src/vm/gc_metadata.h:325-329 | recording each object as it is placed leaves for every card the start of the last object there |
| `Compaction.SameDestination` | src/vm/mark_sweep.h:210-220 | marking the end-of-chunk sentinels after planning changes no destination |
| `CompactedSpace.CompactedTiled` | src/vm/object_memory_mark_sweep.cc:378-387 | after compaction every chunk is again tiled by the moved objects, free memory and the sentinel |
| `CompactedSpace.CompactedValid` | src/vm/program.cc:678-715 | compaction leaves a valid space whose live objects are the moved ones |
| `CompactedSpace.StartsStillOk` | src/vm/object_memory_mark_sweep.cc:464-465 | every recorded object start names an object of the compacted space |
| `Compactor.CompactingVisitor.constructor` | src/vm/object_memory_mark_sweep.cc:431-435 | the visitor starts at the first chunk, limited by its compaction top |
| `Compactor.CompactingVisitor.ObjectMemMove` | src/vm/object_memory_mark_sweep.cc:404-419 | copies all words to a lower address although source and destination may overlap, and writes nothing else |
| `Compactor.CompactingVisitor.FixPointer` | src/vm/object_memory_mark_sweep.cc:389-399 | a pointer into old space becomes the destination of its target, any other word is kept |
| `Compactor.CompactingVisitor.FixPointers` | src/vm/object_memory_mark_sweep.cc:389-399 | redirects exactly the pointers into old space of a block of words, each to the destination of its target |
| `Compactor.CompactingVisitor.NextMarked` | src/vm/object_memory_mark_sweep.cc:441-455 | returns the first marked word after an unmarked one, and never runs past the sentinel |
| `Compactor.CompactingVisitor.AdvanceDestination` | src/vm/object_memory_mark_sweep.cc:459-464 | stops with the bump pointer equal to the planned destination |
| `Compactor.CompactingVisitor.Transfer` | src/vm/object_memory_mark_sweep.cc:466-478 | the object arrives word for word with its pointers redirected, and only its destination range is written |
| `Compactor.CompactingVisitor.VisitLiveObject` | src/vm/object_memory_mark_sweep.cc:457-482 | moving a live object keeps the whole-heap invariant of the move |
| `Compactor.CompactingVisitor.Visit` | src/vm/object_memory_mark_sweep.cc:437-482 | for live and dead objects alike the distance returned leads to the next object boundary |
| `Compactor.CompactingVisitor.InitializeStartsForChunk` | src/vm/gc_metadata.h:50-62 | forgets the starts of the chunk and of no other |
| `Compactor.CompactingVisitor.ZapObjectStarts` | src/vm/object_memory_mark_sweep.cc:244-248 | forgets the starts of all chunks and changes no other entry |
| `Compactor.CompactingVisitor.IterateChunk` | src/vm/mark_sweep.h:210-220 | entering a chunk and walking it moves all its live objects |
| `Compactor.CompactingVisitor.IterateObjects` | src/vm/object_memory.cc:144-158 | the walk from visit to visit ends at the sentinel with all live objects of the chunk moved |
| `Compactor.CompactingVisitor.CompactSpace` | src/vm/program.cc:697-702 | walking all chunks in order moves all live objects to their planned places |
| `Compactor.AddFreeChunk` | src/vm/mark_sweep.h:97-115 | the words between top and end become one free chunk, or fillers when there are fewer than three; nothing else changes |
| `Compactor.MarkChunkEndsFree` | src/vm/object_memory_mark_sweep.cc:378-387 | exactly the memory above each compaction top becomes free; exactly the cards that lie wholly above a top lose their object starts |
| `CompactedSpace.FreedStarts` | src/vm/object_memory_mark_sweep.cc:378-387 | forgetting the starts above the tops forgets none of an object that was moved |
| `Compactor.ClearMarkBits` | src/vm/gc_metadata.h:86-92 | no mark of any chunk survives |
| `Compactor.CompactSharedHeap` | src/vm/program.cc:678-715 | a whole compaction: every live object is copied with redirected pointers, the root words are redirected, the used count is the live words, the chunks are filled as the planner promises, the recorded start of each card is the last object moved there, with none missing, and the resulting space is valid, walkable and unmarked |
| `MarkBits.SlowMark` | src/vm/gc_metadata.cc:247-261 | for marks that reach or cross a word boundary, sets exactly the bits of the object's words |
| `MarkBits.MarkAllAligned` | src/vm/gc_metadata.h:264-291 | with aligned access, sets exactly the bits of the object's words and changes no other bit, for every start and size of two words or more |
| `MarkBits.MarkAllBytewise` | src/vm/gc_metadata.h:264-291 | the same with a 32-bit access at any byte address, including marks that spill into the next word |
| `MarkBits.MarkGreyIfNotMarked` | src/vm/gc_metadata.h:233-241 | tells whether the object was marked and otherwise sets exactly its first bit |
| `MarkBits.IsGrey` | src/vm/gc_metadata.h:247-251 | grey means first word marked and second word not |
| `Marking.PushKeeps` | src/vm/mark_sweep.h:19-27 | a newly grey object that is pushed keeps the tri-colour invariant |
| `Marking.OverflowKeeps` | src/vm/gc_metadata.cc:263-277 | a newly grey object that does not fit on the stack keeps the invariant: its card is flagged and the recorded start lies at or before it |
| `Marking.OverflowWaits` | src/vm/gc_metadata.cc:267-276 | lowering the recorded start never makes the walk miss an object that waits in the card |
| `Marking.PopKeeps` | src/vm/object_memory_mark_sweep.cc:560-566 | taking an object off the stack and blackening it leaves only its own words to be visited |
| `Marking.ClearCard` | src/vm/object_memory.cc:119-126 | clearing a card's flag before scanning loses nothing: its waiting objects are those at or after the recorded start, which is an object |
| `Marking.CardDone` | src/vm/object_memory.cc:127-136 | when the walk leaves the card nothing grey waits in it |
| `Marking.SweepEnds` | src/vm/object_memory.cc:102-142 | once all cards of all chunks are searched, every grey object is on the stack or was flagged anew |
| `Marking.NoFlagLeft` | src/vm/object_memory.cc:119-126 | a flag outlives neither the pending overflow nor the search of its card: without both, no card is flagged |
| `Marking.MarkedIffReachable` | src/vm/object_memory_mark_sweep.cc:568-578 | with an empty stack and no overflow, an object is marked if and only if it can be reached from the roots, black if so and white if not |
| `Marking.MarkedIsPrepared` | src/vm/program.cc:678-715 | the final bitmap is what the planner assumes: live objects have all their words marked, dead objects none |
| `Marker.MarkingStack.constructor` | src/vm/mark_sweep.h:17-17 | an empty stack that satisfies the invariant |
| `Marker.MarkingStack.MarkStackOverflow` | src/vm/gc_metadata.cc:263-277 | flags the card and records the lower of the two starts |
| `Marker.MarkingStack.Push` | src/vm/mark_sweep.h:19-27 | keeps the invariant whether the stack of 128 entries is full or not |
| `Marker.MarkingStack.MarkPointer` | src/vm/mark_sweep.h:70-79 | afterwards the object named by the word is marked, and every grey object is still queued or flagged |
| `Marker.MarkingStack.IteratePointers` | src/vm/mark_sweep.h:56-59 | afterwards all objects that the scanned object points to are marked |
| `Marker.MarkingStack.MarkAll` | src/vm/gc_metadata.h:264-291 | with byte-wise access, by the fast path or by the slow one, exactly the words of the object become marked |
| `Marker.MarkingStack.Empty` | src/vm/object_memory_mark_sweep.cc:560-566 | terminates with an empty stack and the invariant intact |
| `Marker.MarkingStack.ScanCard` | src/vm/object_memory.cc:119-137 | all grey objects that waited in the card are scanned, even if the scan overflows into the same card again |
| `Marker.MarkingStack.SweepByte` | src/vm/object_memory.cc:112-140 | eight cards searched, with the skip of clear bytes |
| `Marker.MarkingStack.IterateOverflowedObjects` | src/vm/object_memory.cc:102-142 | after the sweep no card of any chunk is left to be searched |
| `Marker.MarkingStack.Process` | src/vm/object_memory_mark_sweep.cc:568-578 | the drain-and-sweep loop terminates with nothing grey and no card flagged |
| `Marker.MarkingStack.MarkReachable` | src/vm/object_memory_mark_sweep.cc:568-578 | from any roots: marked if and only if reachable, with any number of overflows, and no card left flagged |
| `Survivors.EdgeKept` | src/vm/object_memory_mark_sweep.cc:389-399 | if a live object points to a live object, so does its copy, at the same offset, to the copy of the target |
| `Survivors.EdgeBack` | src/vm/object_memory_mark_sweep.cc:389-399 | every pointer from a copy to an object of the new space comes from such a pointer of the original: none is invented |
| `Survivors.PlanRelocates` | src/vm/program.cc:678-715 | what the compactor leaves in memory is the old object graph under an injective renaming of addresses |
| `Survivors.SameReachable` | src/vm/program.cc:678-715 | under such a renaming an object is reachable from the moved roots if and only if it is the copy of an object that was reachable |
| `Survivors.RootsMoved` | src/vm/program.cc:710-710 | the redirected root words name exactly the copies of what they named before |
| `Survivors.CopyWellPointed` | src/vm/object_memory_mark_sweep.cc:389-399 | in the new space, too, pointers of live objects into the space name objects |
| `Survivors.CopyTraceable` | src/vm/program.cc:678-715 | in the new space, too, everything the roots reach has at least two words |
| `Collector.CollectableAgain` | src/vm/program.cc:678-715 | the new space meets all that a collection starts from |
| `Collector.CollectOldSpace` | src/vm/program.cc:678-715 | marking followed by compaction: precisely the objects reachable from the roots are kept, each at its destination with its pointers redirected, and so are the roots; every card on which an object starts has a recorded start; in the new space the redirected roots reach exactly the copies, the metadata are clean, and everything the collection required holds again, so that any number of collections can follow each other |
| `Survivors.SurvivorsAreReachable` | src/vm/program.cc:678-715 | the last step of that proof, for one collection seen as a whole: kept if and only if reachable again |
| `ChunkLists.HighestBit` | src/shared/utils.h:150-176 | for every signed 64-bit number the halving search returns the position of the highest set bit of its absolute value, 0 for 0 |
| `ChunkLists.BucketsBySize` | src/vm/mark_sweep.h:97-156 | every chunk in a bucket at or above the highest bit of the request fits; a chunk that fits is there or one bucket below |
| `ChunkLists.FreeList.constructor` | src/vm/mark_sweep.h:178-187 | an empty free list |
| `ChunkLists.FreeList.AddChunk` | src/vm/mark_sweep.h:97-115 | adds exactly this chunk, unless it is too small to be one |
| `ChunkLists.FreeList.GetChunk` | src/vm/mark_sweep.h:117-156 | hands out a chunk that is large enough, out of the highest bucket in use, removes exactly that one, and fails only when every chunk is too small |
| `ChunkLists.FreeList.Merge` | src/vm/mark_sweep.h:164-176 | the result holds exactly the chunks of both lists |
| `ChunkLists.FreeList.TakeAt` | src/vm/mark_sweep.h:140-150 | unlinking a chunk in mid-chain keeps all others |
| `Pages.SearchFromStart` | src/freertos/page_allocator.cc:76-93 | despite the skip to after the busy page, finds the lowest free run, and fails only if there is none |
| `Pages.SearchFromEnd` | src/shared/platform_vm.cc:32-67 | despite skipping a whole candidate when its last page is busy, finds the lowest free run, and fails only if there is none |
| `Pages.LayoutFits` | src/freertos/page_allocator.cc:53-74 | pages lie aligned inside the memory given; with a map supplied from outside they are all whole pages of it; a map kept in the arena lies inside it, before all pages, and costs no more whole pages than its bytes need |
| `Pages.Arena.constructor` | src/freertos/page_allocator.cc:53-74 | a new arena has no page in use and owns all whole pages of the memory given, or all but those that the map needs |
| `Pages.Arena.AllocatePages` | src/freertos/page_allocator.cc:76-93 | the pages handed out were free, are contiguous and lowest, and are the only ones that become taken; failure changes nothing |
| `Pages.Arena.FreePages` | src/freertos/page_allocator.cc:95-101 | exactly the given pages become free |
| `SizeClasses.FreeingIsLastBucketReached` | src/freertos/cmpctmalloc.c:225-229 | a free payload is filed in the last bucket whose smallest size it reaches |
| `SizeClasses.AllocatingIsFirstBucketThatCovers` | src/freertos/cmpctmalloc.c:218-223 | a request is rounded up to the smallest size of the first bucket that covers it |
| `SizeClasses.AnyInBucketFits` | src/freertos/cmpctmalloc.c:175-229 | a free payload is filed at or above the request's bucket if and only if it is large enough for the rounded request |
| `SizeClasses.RoundingIsTight` | src/freertos/cmpctmalloc.c:175-223 | the rounded size is a multiple of 8, covers the request, is exact up to 128 bytes and less than one eighth too large beyond |
| `SizeClasses.BucketExists` | src/freertos/cmpctmalloc.c:225-229 | a payload has a bucket if and only if it is smaller than 4718592 bytes |
| `SizeClasses.RequestHasBucket` | src/freertos/cmpctmalloc.c:218-223 | every request on the bucketed path has a bucket |
| `SizeClasses.PageOrMore` | src/freertos/cmpctmalloc.c:653-660 | the buckets that trimming visits hold exactly the payloads of a page or more |
| `SizeClasses.RoundedTo` | src/freertos/cmpctmalloc.c:175-223 | a request between two neighbouring bucket sizes gets the class of the larger one |
| `BucketBits.SetAffectsOne` | src/freertos/cmpctmalloc.c:251-254 | setting a bucket's bit changes no other bit |
| `BucketBits.ClearAffectsOne` | src/freertos/cmpctmalloc.c:256-259 | clearing a bucket's bit changes no other bit |
| `BucketBits.FindNonemptyBucket` | src/freertos/cmpctmalloc.c:261-272 | returns the smallest non-empty bucket at or above the index, -1 if and only if there is none |
| `FreeLists.PushOk` | src/freertos/cmpctmalloc.c:279-298 | filing an area keeps heads, links, bitmap and the set of free areas in agreement |
| `FreeLists.UnlinkOk` | src/freertos/cmpctmalloc.c:324-336 | unfiling any member of any list keeps them in agreement |
| `Tiling.SpanCovered` | src/freertos/cmpctmalloc.c:851-863 | every byte of a span lies in an area of that span |
| `Tiling.AreasDisjoint` | src/freertos/cmpctmalloc.c:851-863 | areas do not overlap, so the area of a byte is unique |
| `Tiling.RefitOk` | src/freertos/cmpctmalloc.c:746-764 | replacing areas between two boundaries keeps the tiling of all spans |
| `Tiling.SplitOk` | src/freertos/cmpctmalloc.c:746-764 | splitting an area keeps tiling, left pointers and the absence of adjacent free areas |
| `Tiling.MergeOk` | src/freertos/cmpctmalloc.c:802-838 | merging a stretch that ends at areas in use keeps them as well |
| `Spans.AddSpanOk` | src/freertos/cmpctmalloc.c:851-863 | a new span of sentinel, area and sentinel keeps the tiling |
| `Spans.RemoveSpanOk` | src/freertos/cmpctmalloc.c:305-310 | dropping a span with all its areas keeps the tiling of the others |
| `Spans.TrimRightOk` | src/freertos/cmpctmalloc.c:662-681 | cutting pages off the right end keeps the tiling |
| `Spans.TrimLeftOk` | src/freertos/cmpctmalloc.c:682-712 | cutting pages off the left end keeps the tiling if and only if the left sentinel was one header wide |
| `HeapTotals.SpansHoldTheirAreas` | src/freertos/cmpctmalloc.c:851-879 | bytes of all spans = bytes free + bytes in use + bytes of sentinels |
| `Coalescing.StretchAreas` | src/freertos/cmpctmalloc.c:802-838 | between the bounds computed on release lie the block and its free neighbours, nothing else |
| `Coalescing.FillsSpanIffOnlyBlock` | src/freertos/cmpctmalloc.c:312-322 | the test for returning the span succeeds if and only if the span holds no other block |
| `Coalescing.ReleaseKeepsSpan` | src/freertos/cmpctmalloc.c:312-322 | otherwise the stretch becomes one free area and every other block stays |
| `Coalescing.ReleaseRemovesSpan` | src/freertos/cmpctmalloc.c:312-322 | the base and length handed back are exactly those of the span |
| `Trimming.RightEnd` | src/freertos/cmpctmalloc.c:662-681 | the pages to cut are whole, lie inside the free area and its sentinel, and leave a proper span |
| `Trimming.LeftEnd` | src/freertos/cmpctmalloc.c:683-700 | the same at the left end |
| `Trimming.RightTrimDone` | src/freertos/cmpctmalloc.c:662-681 | cutting the right end leaves nothing more to cut there and makes no other area trimmable |
| `Trimming.LeftTrimDone` | src/freertos/cmpctmalloc.c:682-712 | the same at the left end |
| `Trimming.RightTrimOthers` | src/freertos/cmpctmalloc.c:662-681 | every other area that could be trimmed still can, at the same end and by as much |
| `Trimming.LeftTrimOthers` | src/freertos/cmpctmalloc.c:682-712 | the same at the left end |
| `CompactHeap.Heap.constructor` | src/freertos/cmpctmalloc.c:881-903 | an allocator without memory satisfies the whole-heap invariant, with nothing behind a wide sentinel |
| `CompactHeap.Heap.FirstGrowth` | src/freertos/cmpctmalloc.c:881-903 | the first page is taken if there is one; sentinels in front of free areas stay narrow, and the pages that other clients hold are not touched |
| `CompactHeap.Heap.EveryByteCounts` | src/freertos/cmpctmalloc.c:279-336 | in every valid state size = remaining + bytes in use + bytes of sentinels |
| `CompactHeap.Heap.BlockBacked` | src/freertos/cmpctmalloc.c:867-879 | every block in use lies between the sentinels of a span made of pages taken from the page allocator |
| `CompactHeap.Heap.BlocksApart` | src/freertos/cmpctmalloc.c:719-771 | blocks in use are 8-aligned and pairwise disjoint |
| `CompactHeap.Heap.UnlinkFree` | src/freertos/cmpctmalloc.c:324-336 | exactly this area leaves the lists, and remaining drops by its size |
| `CompactHeap.Heap.UnlinkFreeUnknownBucket` | src/freertos/cmpctmalloc.c:338-341 | the same without knowing the bucket |
| `CompactHeap.Heap.CreateFreeArea` | src/freertos/cmpctmalloc.c:279-298 | the area becomes the head of its bucket and remaining grows by its size |
| `CompactHeap.Heap.AddToHeap` | src/freertos/cmpctmalloc.c:851-863 | writes both sentinels and the free area; the area is filed unless the caller keeps it |
| `CompactHeap.Heap.HeapGrow` | src/freertos/cmpctmalloc.c:867-879 | fails if and only if the page allocator has no run of that length, and then changes nothing; otherwise exactly one span is added, behind a one-header sentinel, and exactly its pages are taken |
| `CompactHeap.Heap.LargeAlloc` | src/freertos/cmpctmalloc.c:619-645 | a block of whole pages of its own, fresh and aligned, or no change; the pages of other clients are not touched |
| `CompactHeap.LargePayload` | src/freertos/cmpctmalloc.c:619-645 | a large block holds the requested bytes if and only if the rounded request plus two headers is not a multiple of the page size |
| `CompactHeap.LargeBlockTooShort` | src/freertos/cmpctmalloc.c:624-627 | a concrete large request that gets eight bytes too few |
| `CompactHeap.GrowthOf` | src/freertos/cmpctmalloc.c:732-745 | whatever growth the back-off loop tries covers the rounded request and fits the buckets |
| `CompactHeap.Heap.GrowFor` | src/freertos/cmpctmalloc.c:732-745 | the back-off loop terminates; it succeeds if and only if pages for the rounded request exist, and then a free area large enough is filed, so the second lookup cannot fail; the heap grows by the first amount for which there are pages, of an eighth of the heap within limits, half of that, and so on; the pages of other clients are not touched |
| `Requests.GrowsByAnEighth` | src/freertos/cmpctmalloc.c:732-745 | growth by the back-off rule is growth by exactly an eighth of the heap, rounded to pages, when that is within limits, enough for the request and to be had; it is never more |
| `CompactHeap.HeadFits` | src/freertos/cmpctmalloc.c:731-747 | the head of any non-empty bucket from the request's bucket on is large enough, so no chain is searched |
| `CompactHeap.SomethingFits` | src/freertos/cmpctmalloc.c:730-732 | if some free area is large enough, the bitmap search finds a bucket |
| `CompactHeap.Heap.SplitOff` | src/freertos/cmpctmalloc.c:750-764 | the block gets exactly its bytes and the rest stays free |
| `CompactHeap.Heap.Carve` | src/freertos/cmpctmalloc.c:746-764 | the block covers the rounded size and wastes less than a free area or a small part of the request |
| `CompactHeap.HeadPicked` | src/freertos/cmpctmalloc.c:730-747 | the head that is used lies in the lowest bucket that holds an area large enough |
| `CompactHeap.Heap.FindBucket` | src/freertos/cmpctmalloc.c:726-746 | grows the heap only when no free area can serve the request, by an eighth where there are pages for that, and finds the first bucket that can; none if and only if neither areas nor pages suffice |
| `CompactHeap.Heap.BucketAlloc` | src/freertos/cmpctmalloc.c:725-770 | serves a request from that bucket with exactly the steps that `HeapRuns` allows for it |
| `CompactHeap.Heap.Alloc` | src/freertos/cmpctmalloc.c:719-771 | succeeds if and only if free areas or pages suffice; returns a fresh, aligned block, keeps all others, holds the request on the bucketed path, does not grow the heap if an area can serve the request and else by an eighth where there are pages for that, changes nothing on failure, keeps the sentinels in front of free areas narrow, and leaves the pages of other clients alone |
| `CompactHeap.Heap.Coalesce` | src/freertos/cmpctmalloc.c:806-832 | takes exactly the free neighbours off their lists and computes the stretch they form with the block |
| `CompactHeap.Heap.FreeToOs` | src/freertos/cmpctmalloc.c:305-310 | returns exactly the pages of the span and lowers size by them |
| `CompactHeap.Heap.FreeMemory` | src/freertos/cmpctmalloc.c:312-322 | the stretch goes to the page allocator or to the free lists with the whole-heap invariant restored |
| `CompactHeap.Heap.Free` | src/freertos/cmpctmalloc.c:802-838 | removes exactly this block; exactly the pages of its span go back if it was the only block there, and none otherwise; then trimming stays safe if and only if the stretch it leaves would not be cut behind a wide sentinel |
| `CompactHeap.LargeAlignment` | src/freertos/cmpctmalloc.c:773-800 | the address computed is aligned and leaves room for a free area and a header in front |
| `CompactHeap.AlignedPayloadOfNull` | src/freertos/cmpctmalloc.c:780-783 | the address computed from NULL is not NULL, for every alignment |
| `CompactHeap.Heap.CutBlock` | src/freertos/cmpctmalloc.c:785-796 | one block becomes two adjacent blocks, both in use |
| `CompactHeap.Heap.Memalign` | src/freertos/cmpctmalloc.c:773-800 | the result is NULL or a fresh aligned block if and only if the alignment is below 8 or the padded request can be met; the block holds the request, no other block changes, the sentinels in front of free areas stay narrow, and the pages of other clients are not touched |
| `CompactHeap.Heap.TrimEnd` | src/freertos/cmpctmalloc.c:662-681 | gives back pages if and only if the area can be trimmed, and then exactly those from the page after the start of the free area to the end of the span, whatever the left sentinel: no block moves, size drops by those pages, all other areas are as trimmable as before |
| `CompactHeap.Heap.TrimStart` | src/freertos/cmpctmalloc.c:682-712 | the same at the left end behind a one-header sentinel, with exactly the pages before the last one that can hold the new sentinel; that is two headers wide if and only if exactly eight bytes are left over |
| `CompactHeap.Heap.Trim` | src/freertos/cmpctmalloc.c:647-717 | if no free area that is cut at its left end lies behind a wide sentinel: exactly the pages that can be cut off the free areas of a page or more are given back and none of other clients, blocks stay as they are, size drops by those pages, nothing of that size is left to trim, and trimming stays safe |
| `CompactHeap.CutPagesInside` | src/freertos/cmpctmalloc.c:662-700 | every page that a visit gives back lies wholly inside the free area and the sentinel next to it |
| `HeapSteps.StepExact` | src/freertos/cmpctmalloc.c:279-356 | of all the steps that calls are made of, each keeps every span tiled if and only if it is not a cut at the left end behind a wide sentinel |
| `HeapSteps.FrontAfter` | src/freertos/cmpctmalloc.c:719-863 | a free area behind a left sentinel was there before the step, or is the one the step has made, with the sentinel it says |
| `HeapSteps.WidthAfter` | src/freertos/cmpctmalloc.c:694-701 | the width of a left sentinel is eight in a new span, changes only when the start of its span is moved, and is then sixteen if and only if eight bytes were left over |
| `HeapSteps.StaysNarrow` | src/freertos/cmpctmalloc.c:719-863 | every step except a release keeps the sentinels in front of free areas narrow |
| `HeapSteps.ReleaseNarrow` | src/freertos/cmpctmalloc.c:802-838 | a release keeps them narrow if and only if the span goes back or the free stretch it leaves does not follow a wide sentinel |
| `HeapSteps.StaysTrimSafe` | src/freertos/cmpctmalloc.c:647-863 | every step except a release keeps trimming safe |
| `HeapSteps.ReleaseTrimSafe` | src/freertos/cmpctmalloc.c:802-838 | a release keeps trimming safe if and only if the span goes back or the stretch it leaves would not be cut behind a wide sentinel |
| `HeapRuns.VisitCuts` | src/freertos/cmpctmalloc.c:682-693 | a visit to a free area of a page or more at the left end always cuts |
| `HeapRuns.TrimExact` | src/freertos/cmpctmalloc.c:647-717 | from any heap that calls can reach, a whole pass of trimming keeps the heap tiled if and only if no free area that it cuts at the left end lies behind a wide sentinel |
| `HeapRuns.CallNarrow` | src/freertos/cmpctmalloc.c:719-800 | initialisation, allocation, aligned allocation and trimming keep the sentinels in front of free areas narrow |
| `HeapRuns.TiledIffTrimmedSafely` | src/freertos/cmpctmalloc.c:647-838 | over every sequence of calls from the empty heap: the heap is tiled if and only if trimming was only called when it was safe |
| `HeapRuns.NarrowCalls` | src/freertos/cmpctmalloc.c:647-838 | over every sequence of calls in which no release leaves a free stretch behind a wide sentinel, the heap is tiled and trimming is safe at any time |
| `HeapRuns.WideFromTrim` | src/freertos/cmpctmalloc.c:694-701 | a wide sentinel in a heap reached by any steps was written by an earlier cut at the left end of its span that had eight bytes left over |
| `HeapRuns.OneCallMore` | src/freertos/cmpctmalloc.c:647-838 | calls on the allocator, one after the other, form such a sequence |
| `WideSentinels.WideSentinelExample` | src/freertos/cmpctmalloc.c:647-903 | ten calls, starting with initialisation, after which the heap is not tiled, with the last trim the only one that was not safe; no request in it could have been met from another area |
| `WideSentinels.SizesAsRounded` | src/freertos/cmpctmalloc.c:175-223 | the sizes and the growth in that sequence are those of requests for 14336, 1000 and 4096 bytes |
| `WideSentinels.OneWay` | src/freertos/cmpctmalloc.c:719-771 | when one free area is alone in the first bucket that can serve a request, there is exactly one way to meet the request |
| `LargeSpans.FrontPartHasList` | src/freertos/cmpctmalloc.c:773-796 | the part in front of an aligned block has a free list if and only if it is below 4718600 bytes, which it always is for alignments up to 4 MB |
| `LargeSpans.FrontPartExample` | src/freertos/cmpctmalloc.c:773-796 | an alignment of 8 MB for which it has none |
| `LargeSpans.EveryReleaseHasPlace` | src/freertos/cmpctmalloc.c:279-322 | as long as spans longer than the buckets allow hold a single block, the stretch that a release leaves has a free list or fills its span |
| `LargeSpans.MissingListExample` | src/freertos/cmpctmalloc.c:773-838 | initialisation, an aligned request for 5 MB and one for 500 bytes; the release of the aligned block then needs a free list that does not exist |
| `LargeSpans.FrontPartReleased` | src/freertos/cmpctmalloc.c:773-796 | in that sequence the part in front of the aligned block, 1008 bytes, merges with nothing and does not fill its span, so it becomes a free area |
| `LargeSpans.FrontPartPicked` | src/freertos/cmpctmalloc.c:726-771 | in that sequence the request for 500 bytes can only be met from the part in front of the aligned block |
| `LargeSpans.AlignedSizes` | src/freertos/cmpctmalloc.c:619-645 | the sizes in that sequence are those that padding, growth and size classes give |
| `WaitLists.WaitList.AddToWaitList` | src/shared/platform_cmsis.h:251-260 | the entry becomes the last of the queue |
| `WaitLists.WaitList.TakeFirst` | src/shared/platform_cmsis.h:184-191 | takes the longest waiting entry, and last_waiting_ stays right |
| `WaitLists.WaitList.TakeAll` | src/shared/platform_cmsis.h:198-203 | the queue becomes empty and the old chain can still be followed |
| `WaitLists.WaitList.MaybeRemoveFromWaitList` | src/shared/platform_cmsis.h:263-281 | removes exactly this entry, first, middle or last; false if and only if it is not in the queue |
| `MonitorLists.AddEntryTo` | src/shared/platform_cmsis.h:131-136 | appending on the pointers is the step that adds an entry in the state machine |
| `MonitorLists.CheckEntryIn` | src/shared/platform_cmsis.h:166-173 | following the links removes the own entry, or finds it gone, exactly as the step of the state machine says |
| `MonitorLists.TakeEntriesFrom` | src/shared/platform_cmsis.h:184-203 | what Notify and NotifyAll do to the pointers is the step that takes entries, and the head they keep is the first to be woken |
| `MonitorRuns.InitialOk` | src/shared/platform_cmsis.h:110-121 | the initial state satisfies the invariant |
| `MonitorRuns.StepKeeps` | src/shared/platform_cmsis.h:131-213 | every atomic step of every thread keeps the invariant on locks, list, wake chain, waiters, semaphores and history |
| `MonitorRuns.RunsKeep` | src/shared/platform_cmsis.h:131-213 | so it holds in every state of every interleaving |
| `MonitorRuns.ReportsAreRight` | src/shared/platform_cmsis.h:150-176 | in every run a finished wait reports "timed out" if and only if no notifier took its entry |
| `MonitorRuns.EveryNotificationArrives` | src/shared/platform_cmsis.h:184-213 | in every run each entry a notifier took belongs to exactly a wait that has reported "notified" or is still inside and about to |
| `MonitorRuns.OnlyLiveEntriesAreTouched` | src/shared/platform_cmsis.h:204-211 | in every run a notifier reads the link of an entry and releases its semaphore only while the entry is alive and not yet released |
| `MonitorCalls.RunsDo` | src/shared/platform_cmsis.h:131-213 | in every run the wait list, the waits that notifiers picked and the reports are those that the sequence of calls and steps tells, without looking at the state |
| `MonitorCalls.NotifyTakes` | src/shared/platform_cmsis.h:184-213 | in every run a call of NotifyAll empties the list and takes exactly those that wait when it looks; a call of Notify takes exactly the one that has waited longest, if any |
| `MonitorCalls.NotifyDone` | src/shared/platform_cmsis.h:184-213 | when the notifier is back, each wait that it took has a token or is past its semaphore, or has reported "notified" |
| `MonitorCalls.TimesOutIfLimited` | src/shared/platform_cmsis.h:150-170 | in every run a sleeping wait can time out if and only if it was called with a time limit, and only such waits report a timeout |
| `MonitorCalls.ReportsAsTold` | src/shared/platform_cmsis.h:150-176 | the reports are those told by the calls: a timeout if and only if no notification had picked the wait |
| `MonitorCalls.NobodyIsStuck` | src/shared/platform_cmsis.h:131-213 | in every run a thread that holds a lock, has been signalled or finds the lock it needs free has an enabled step; a signalled sleeper finds its token |
| `MailboxRuns.Messages.ReverseList` | src/vm/mailbox.h:86-95 | in-place reversal yields the reversed list and touches no other message |
| `Mailbox.InitialOk` | src/vm/mailbox.h:18-18 | the empty mailbox satisfies the invariant |
| `MailboxRuns.StepKeeps` | src/vm/mailbox.h:33-63 | every atomic step of any producer or the consumer keeps the invariant, with spurious failures and reused addresses |
| `MailboxRuns.RunsKeep` | src/vm/mailbox.h:33-63 | so it holds in every state of every interleaving |
| `MailboxRuns.DeliveryIsFifo` | src/vm/mailbox.h:33-95 | in every run what has been pushed is what has been delivered followed by what is pending: order of successful CAS steps, no loss, no duplicate |
| `MailboxRuns.RunsAsTold` | src/vm/mailbox.h:33-63 | in every run the pushed messages are those that the steps tell: one for each successful compare-and-swap, the message that its producer made |
| `MailboxRuns.DeliveredAsPushed` | src/vm/mailbox.h:33-95 | in every run what has been delivered is the first so many messages told by the pushes, as many as the consumer has advanced, and the rest is pending |
| `MailboxRuns.NobodyIsStuck` | src/vm/mailbox.h:33-95 | in every run each producer and the consumer have an enabled next step, whatever the others do |
| `MailboxRuns.PushIsLostToAnother` | src/vm/mailbox.h:33-40 | in every run a push can succeed unless another push or a take has, since the producer read the last message |
| `MailboxRuns.TakeIsLostToPush` | src/vm/mailbox.h:45-51 | in every run taking the stack can succeed unless a push has, since the consumer read the last message |
| `MailboxRuns.OnlyLiveMessagesAreTouched` | src/vm/mailbox.h:33-95 | in every run producers and consumer use the memory of a message only while it is alive |
| `Links.MultiSet.Add` | src/vm/multi_hashset.h:26-32 | counts one more occurrence; true if and only if it is the first |
| `Links.MultiSet.Remove` | src/vm/multi_hashset.h:43-54 | counts one less; true if and only if it was the last; no effect on an absent key |
| `Links.ProcessLinks.constructor` | src/vm/links.cc:13-33 | no links, no reference held |
| `Links.ProcessLinks.InsertPort` | src/vm/links.cc:13-16 | one more monitor, still one reference per distinct port |
| `Links.ProcessLinks.InsertHandle` | src/vm/links.cc:18-23 | refused if and only if half dead; one reference per distinct handle |
| `Links.ProcessLinks.RemovePort` | src/vm/links.cc:25-28 | one monitor less, the reference goes with the last one |
| `Links.ProcessLinks.RemoveHandle` | src/vm/links.cc:30-33 | one link less, the reference goes with the last one |
| `Links.ProcessLinks.EnqueueSignal` | src/vm/links.cc:75-101 | one message if the receiver lives through both checks, none otherwise; a message that was made and deleted leaves no reference behind |
| `Links.ProcessLinks.SendSignal` | src/vm/links.cc:103-123 | one signal if the receiver lives through both checks, none otherwise |
| `Links.ProcessLinks.Release` | src/vm/links.cc:53-53 | the shared signal ends up with one reference per delivered copy and goes away without copies |
| `Links.ProcessLinks.NotifyMonitors` | src/vm/links.cc:56-73 | each port gets as many messages as its count, less those for which it was found dead; all references to ports are dropped |
| `Links.ProcessLinks.NotifyLinkedProcesses` | src/vm/links.cc:35-54 | each live linked process gets exactly one signal however often it is linked; the process is half dead from then on |
| `Links.AllArrive` | src/vm/links.cc:60-67 | a port that lives throughout gets exactly its count |
| `CircularBuffer.Ring.constructor` | src/freertos/circular_buffer.cc:10-15 | an empty queue of the given capacity, which may be zero |
| `CircularBuffer.Ring.IsEmpty` | src/freertos/circular_buffer.cc:21-23 | true if and only if nothing is queued |
| `CircularBuffer.Ring.IsFull` | src/freertos/circular_buffer.cc:25-27 | true if and only if as many bytes are queued as the capacity |
| `CircularBuffer.Ring.Read` | src/freertos/circular_buffer.cc:29-48 | removes and delivers exactly the min(count, used) oldest bytes, in order |
| `CircularBuffer.Ring.Write` | src/freertos/circular_buffer.cc:50-70 | appends exactly the first min(count, free) bytes |

## Left out

Contracts that state less than they could:

- CompactHeap.Heap.Memalign: covers powers of two and, from alignment 8 on, padded sizes on the bucketed path. For larger ones `FrontPartHasList` says when the code can file the part in front of the aligned block, and `MissingListExample` shows a later release that it cannot file. What the code writes below address zero after a failed inner allocation is not modelled.
- CompactHeap.Heap.Trim: starts from a heap where trimming is safe; otherwise the code breaks the tiling (`TrimExact`, both directions). That nothing trimmable is left is stated for free payloads of a page or more, the only ones the code visits.
- CompactHeap.Heap.TrimStart: starts from a one-header sentinel in front of the area that is cut; otherwise the code breaks the tiling (`TrimLeftOk`, both directions).
- CompactHeap.Heap.LargeAlloc: promises the length the code asks for, which can be eight bytes short; `LargePayload` says when.
- HeapRuns.TiledIffTrimmedSafely: what calls do to a heap that is no longer tiled is not modelled; in a sequence such a heap stays as it is. Padded sizes of aligned requests are those of `Memalign`.
- CompactHeap.Heap.Alloc: the wrap-around of a request near 2^32 plus a header is not modelled.
- Pages.Arena.constructor: the memory given must contain a page boundary; with less the code's subtraction wraps around.
- Pages.SearchFromEnd: committing and uncommitting virtual memory and its failure are not modelled.
- Planner.GcMetadata.CalculateObjectDestinations: destination chunks are not empty. That there was no room is a result of the model; the code goes on with a chunk past the end of the list, and what it does then is not modelled.
- ChunkLists.FreeList.AddChunk: sizes are below 2^63, as the signed argument of the bit search demands; the filler words written for memory too small for a chunk are modelled in `Compactor.AddFreeChunk` only.
- ChunkLists.FreeList.GetChunk: sizes are below 2^63, for the same reason.
- Marker.MarkingStack.MarkPointer: chaining of stack objects is not modelled; whether a word points into the heap is a membership test in place of the page-type table.
- Marker.MarkingStack.SweepByte: eight booleans stand for a byte of flags.
- Marker.MarkingStack.Process: old and new space are one list of chunks.
- Marker.MarkingStack.IterateOverflowedObjects: overflow flags are one boolean per card instead of one bit, searched eight at a time as in the source; old and new space are one list of chunks.
- Collector.CollectOldSpace: that the copies are again what the roots reach, and that another collection can follow, needs pointers into the space, from live objects and roots, to name objects; the collector relies on that everywhere.
- Compactor.CompactingVisitor.Transfer: the remembered set and the frame pointers of stacks are not modelled.
- Compactor.MarkChunkEndsFree: the remembered set is not modelled.
- Compactor.AddFreeChunk: writes the headers of free memory; the linking into the free list is in `ChunkLists`.
- Compactor.CompactSharedHeap: weak pointers, ports, the remembered set and the fixing of pointers in new space are not modelled.
- Links.ProcessLinks.NotifyMonitors: whether a receiver is alive at each of the two checks is an input; waking the receiver is not modelled.
- Links.ProcessLinks.NotifyLinkedProcesses: the same.
- MonitorRuns.StepKeeps: notifiers hold the monitor's mutex, as all users do; failing operating-system calls, absolute deadlines and fairness are not modelled; of progress, `MonitorCalls.NobodyIsStuck`.
- MailboxRuns.StepKeeps: atomic steps are sequentially consistent, and fairness is not modelled; the destructor and pointer iteration are not modelled.

Parts of the repository without a model:

- Reallocation, the debug fills and the self-tests of the compact malloc, its lock, and the contents of its blocks.
- The wrappers that choose among several page arenas.
- Scavenging, sweeping, weak pointers and write barriers of the garbage collector, and allocation in its spaces.
- The interpreter, scheduler, processes, program loading, sockets, event handlers and foreign calls: input, output and foreign code.
- The assemblers and code generators: their meaning is that of the target machine.
- The hash table under the counted set: a finite map stands for it, and its iteration order is arbitrary.
- Tools, flags, printing and command-line programs: no property of the kind proved here.
