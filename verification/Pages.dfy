/** The page allocators: two first-fit searches over a byte map, and the arena that hands out pages. */
module Pages {

  /** Pages i to i + n - 1 are free. */
  ghost predicate FreeRun(map_: seq<nat>, i: nat, n: nat) {
    i + n <= |map_| && forall j :: i <= j < i + n ==> map_[j] == 0
  }

  ghost predicate HasRun(map_: seq<nat>, n: nat) {
    exists i: nat :: FreeRun(map_, i, n)
  }

  lemma ShorterRun(map_: seq<nat>, n: nat, m: nat)
    requires HasRun(map_, n) && m <= n
    ensures HasRun(map_, m)
  {
    var i: nat :| FreeRun(map_, i, n);
    assert FreeRun(map_, i, m);
  }

  /** What both searches must find: the lowest free run, or nothing if there is none. */
  ghost predicate FirstFit(map_: seq<nat>, n: nat, found: bool, i: nat) {
    if found then FreeRun(map_, i, n) && (forall k: nat :: k < i ==> !FreeRun(map_, k, n))
    else forall k: nat :: !FreeRun(map_, k, n)
  }

  /** A busy page at k rules out every run that contains it. */
  lemma BusyPage(map_: seq<nat>, k: nat, n: nat, i: nat)
    requires k < |map_| && map_[k] != 0 && i <= k < i + n
    ensures !FreeRun(map_, i, n)
  {
  }

  /**
   The search of the embedded allocator: on a busy page, continue after it.
   */
  method SearchFromStart(map_: array<nat>, n: nat) returns (found: bool, i: nat)
    requires 0 < n <= map_.Length
    ensures FirstFit(map_[..], n, found, i)
  {
    i := 0;
    while i < map_.Length - n + 1
      invariant forall k: nat :: k < i ==> !FreeRun(map_[..], k, n)
      decreases map_.Length - i
    {
      found := true;
      var j := 0;
      while j < n
        invariant 0 <= j <= n
        invariant forall k :: i <= k < i + j ==> map_[k] == 0
      {
        if map_[i + j] != 0 {
          found := false;
          break;
        }
        j := j + 1;
      }
      if found {
        return;
      }
      forall k: nat | k <= i + j
        ensures !FreeRun(map_[..], k, n)
      {
        if i <= k { BusyPage(map_[..], i + j, n, k); }
      }
      i := i + j + 1;
    }
    found := false;
  }

  /**
   The search of the virtual-memory arena: if the last page of the candidate run is busy, the whole run
   is skipped without looking at the rest.
   */
  method SearchFromEnd(map_: array<nat>, n: nat) returns (found: bool, i: nat)
    requires 0 < n <= map_.Length
    ensures FirstFit(map_[..], n, found, i)
  {
    i := 0;
    while i <= map_.Length - n
      invariant forall k: nat :: k < i ==> !FreeRun(map_[..], k, n)
      decreases map_.Length - i
    {
      var busy := i + n - 1;
      if map_[busy] == 0 {
        found := true;
        var j := 0;
        while j < n
          invariant 0 <= j <= n
          invariant forall k :: i <= k < i + j ==> map_[k] == 0
        {
          if map_[i + j] != 0 {
            found := false;
            busy := i + j;
            break;
          }
          j := j + 1;
        }
        if found {
          return;
        }
      }
      forall k: nat | k <= busy
        ensures !FreeRun(map_[..], k, n)
      {
        if i <= k { BusyPage(map_[..], busy, n, k); }
      }
      i := busy + 1;
    }
    found := false;
  }

  /** n consecutive page numbers. */
  function PageRange(first: nat, n: nat): (r: set<nat>)
    ensures forall p: nat :: p in r <==> first <= p < first + n
  {
    if n == 0 then {} else PageRange(first, n - 1) + {first + n - 1}
  }

  /** An arena of pages with one map byte per page. An arena without pages is an unused slot. */
  class Arena {
    var base: nat
    var pages: nat
    var map_: array<nat>

    ghost predicate Valid()
      reads this
    {
      && base % 4096 == 0 && (0 < pages ==> 0 < base) && map_.Length == pages
    }

    /** The pages that belong to the arena. */
    ghost function Owned(): set<nat>
      reads this
    {
      PageRange(base / 4096, pages)
    }

    /** The pages that are in use. */
    ghost function Taken(): set<nat>
      requires Valid()
      reads this, map_
    {
      set p | p in Owned() && map_[p - base / 4096] != 0
    }

    /**
     Set up an arena over `size` bytes at `start`; all its pages are free. With a supplied map of a byte for every whole
     page the arena has all of them. Otherwise it keeps back as many pages as the bytes for all of them take, and starts
     with the first page after its map.
     */
    constructor (start: nat, size: nat, supplied: nat, suppliedSize: nat)
      requires 0 < start && RoundUp(start) <= RoundDown(start + size)
      ensures Valid() && fresh(map_) && Taken() == {}
      ensures var first, whole := RoundUp(start), (RoundDown(start + size) - RoundUp(start)) / 4096;
              if supplied != 0 && whole <= suppliedSize then
                base == first && base + 4096 * pages == RoundDown(start + size)
              else
                && pages + RoundUp(whole) / 4096 == whole
                && first + pages <= base < first + pages + 4096 && base + 4096 * pages <= RoundDown(start + size)
    {
      LayoutFits(start, size, supplied, suppliedSize);
      var l := InitialLayout(start, size, supplied, suppliedSize);
      base, pages := l.base, l.pages;
      map_ := new nat[l.pages](_ => 0);
    }

    /** Take the lowest free run of n pages; 0 if there is none. */
    method AllocatePages(n: nat) returns (address: nat)
      requires Valid()
      modifies map_
      ensures Valid() && map_ == old(map_)
      ensures address == 0 ==> map_[..] == old(map_[..])
      ensures address == 0 && 0 < n ==> forall i: nat :: !FreeRun(old(map_[..]), i, n)
      ensures address != 0 ==>
                && address % 4096 == 0 && 0 < n && PageRange(address / 4096, n) <= Owned()
                && PageRange(address / 4096, n) !! old(Taken())
                && Taken() == old(Taken()) + PageRange(address / 4096, n)
                && base <= address && FirstFit(old(map_[..]), n, true, address / 4096 - base / 4096)
    {
      if n == 0 || n > pages {
        return 0;
      }
      var found, i := SearchFromStart(map_, n);
      if !found {
        return 0;
      }
      ghost var before := map_[..];
      for j := i to i + n
        invariant forall k :: 0 <= k < map_.Length ==> map_[k] == if i <= k < j then 1 else before[k]
      {
        map_[j] := 1;
      }
      address := base + 4096 * i;
      assert address / 4096 == base / 4096 + i;
    }

    /** Give back n pages that are in use. */
    method FreePages(address: nat, n: nat)
      requires Valid() && address % 4096 == 0 && PageRange(address / 4096, n) <= Taken()
      modifies map_
      ensures Valid() && map_ == old(map_)
      ensures Taken() == old(Taken()) - PageRange(address / 4096, n)
    {
      ghost var before := map_[..];
      if n > 0 {
        assert address / 4096 in PageRange(address / 4096, n);
        assert address / 4096 + n - 1 in PageRange(address / 4096, n);
        var index := (address - base) / 4096;
        assert index == address / 4096 - base / 4096;
        for i := 0 to n
          invariant forall k :: 0 <= k < map_.Length ==> map_[k] == if index <= k < index + i then 0 else before[k]
        {
          map_[index + i] := 0;
        }
      }
    }
  }

  /** Where an arena keeps its map and its pages, given the memory it was set up with. */
  datatype ArenaLayout = ArenaLayout(map_: nat, base: nat, pages: nat)

  function RoundUp(x: nat): (r: nat)
    ensures r % 4096 == 0 && x <= r < x + 4096
  {
    (x + 4095) / 4096 * 4096
  }

  function RoundDown(x: nat): (r: nat)
    ensures r % 4096 == 0 && r <= x < r + 4096
  {
    x / 4096 * 4096
  }

  /**
   The layout chosen at initialization: a supplied map that is large enough is used, otherwise the arena's own memory.
   */
  function InitialLayout(start: nat, size: nat, supplied: nat, suppliedSize: nat): ArenaLayout
    requires RoundUp(start) <= RoundDown(start + size)
  {
    var first := RoundUp(start);
    var pages := (RoundDown(start + size) - first) / 4096;
    if supplied != 0 && suppliedSize >= pages then
      ArenaLayout(supplied, first, pages)
    else
      var rest := pages - RoundUp(pages) / 4096;
      ArenaLayout(first, RoundUp(first + rest), rest)
  }

  lemma RoundUpAdd(first: nat, x: nat)
    requires first % 4096 == 0
    ensures RoundUp(first + x) == first + RoundUp(x)
  {
  }

  lemma RoundUpMono(x: nat, y: nat)
    requires x <= y
    ensures RoundUp(x) <= RoundUp(y)
  {
  }

  /**
   Pages are page aligned and inside the memory given; a map in the arena itself comes before all pages and inside it.
   All whole pages belong to the arena, less those that a map in the arena takes.
   */
  lemma LayoutFits(start: nat, size: nat, supplied: nat, suppliedSize: nat)
    requires RoundUp(start) <= RoundDown(start + size)
    ensures var l := InitialLayout(start, size, supplied, suppliedSize);
            && l.base % 4096 == 0
            && start <= l.base && l.base + 4096 * l.pages <= RoundDown(start + size)
            && ((supplied != 0 && suppliedSize >= l.pages && l.map_ == supplied)
                || (start <= l.map_ && l.map_ + l.pages <= l.base))
    ensures var l, first := InitialLayout(start, size, supplied, suppliedSize), RoundUp(start);
            var whole := (RoundDown(start + size) - first) / 4096;
            if supplied != 0 && whole <= suppliedSize then
              l.base == first && l.base + 4096 * l.pages == RoundDown(start + size)
            else
              l.map_ == first && l.pages + RoundUp(whole) / 4096 == whole
                  && first + l.pages <= l.base < first + l.pages + 4096
  {
    hide RoundUp, RoundDown;
    var first := RoundUp(start);
    var pages := (RoundDown(start + size) - first) / 4096;
    assert first + 4096 * pages == RoundDown(start + size);
    var rest := pages - RoundUp(pages) / 4096;
    RoundUpAdd(first, rest);
    RoundUpMono(rest, pages);
  }
}
