/** Every byte of the compact heap is accounted for: free areas, blocks in use and sentinels add up to the spans. */
module HeapTotals {
  import opened AreaMaps
  import opened Spans
  import opened Tiling
  import opened Totals

  /** The entries of some keys. */
  ghost function Only(m: map<nat, nat>, keys: set<nat>): map<nat, nat> {
    map k | k in m && k in keys :: if k in m && k in keys then m[k] else 0
  }

  lemma {:induction false} TotalUnion(m: map<nat, nat>, n: map<nat, nat>)
    requires m.Keys !! n.Keys
    ensures Total(m + n) == Total(m) + Total(n)
    decreases |n|
  {
    hide Total;
    if n == map[] {
      UnionEmpty(m, n);
    } else {
      var k :| k in n;
      UnionRemove(m, n, k);
      TotalUnion(m, n - {k});
      TotalRemove(n, k);
      TotalRemove(m + n, k);
    }
  }

  lemma UnionEmpty(m: map<nat, nat>, n: map<nat, nat>)
    requires n == map[]
    ensures m + n == m && Total(n) == 0
  {
    assert m + n == m;
  }

  lemma UnionRemove(m: map<nat, nat>, n: map<nat, nat>, k: nat)
    requires m.Keys !! n.Keys && k in n
    ensures (m + n) - {k} == m + (n - {k}) && m.Keys !! (n - {k}).Keys && |n - {k}| < |n| && (m + n)[k] == n[k]
  {
    assert (n - {k}).Keys == n.Keys - {k};
    assert (m + n) - {k} == m + (n - {k});
  }

  /** The total over disjoint sets of keys. */
  lemma OnlyUnion(m: map<nat, nat>, a: set<nat>, b: set<nat>)
    requires a !! b
    ensures Total(Only(m, a + b)) == Total(Only(m, a)) + Total(Only(m, b))
  {
    hide Total;
    assert Only(m, a + b) == Only(m, a) + Only(m, b);
    TotalUnion(Only(m, a), Only(m, b));
  }

  lemma OnlyOne(m: map<nat, nat>, k: nat)
    requires k in m
    ensures Total(Only(m, {k})) == m[k]
  {
    hide Total;
    assert Only(m, {k}) == map[][k := m[k]];
    TotalAdd(map[], k, m[k]);
    EmptyTotal();
  }

  lemma OnlyNone(m: map<nat, nat>)
    ensures Total(Only(m, {})) == 0
  {
    assert Only(m, {}) == map[];
  }

  /** The bytes of every area. */
  ghost function Extents(t: Tiles): map<nat, nat> {
    map a | a in t.areas && a in t.hdr :: if a in t.areas && a in t.hdr then Extent(t, a) else 0
  }

  ghost function AreasFrom(t: Tiles, i: nat, from: nat): set<nat> {
    set x | x in t.areas && InSpan(t, x, i) && from <= x
  }

  /** From any area on, the areas of a span add up to the rest of the span. */
  lemma {:induction false} RestOfSpan(t: Tiles, i: nat, a: nat)
    requires TilesOk(t) && i in t.spans && InSpan(t, a, i)
    ensures Total(Only(Extents(t), AreasFrom(t, i, a))) == t.spans[i].base + t.spans[i].length - a
    decreases t.spans[i].base + t.spans[i].length - a
  {
    hide Total, Only, AreasFrom;
    var e := Extents(t);
    AreaLocated(t, a);
    OnlyOne(e, a);
    if a == t.spans[i].Top() {
      LastArea(t, i);
    } else {
      NextArea(t, i, a);
      RestOfSpan(t, i, a + t.hdr[a].size);
      OnlyUnion(e, AreasFrom(t, i, a + t.hdr[a].size), {a});
    }
  }

  lemma LastArea(t: Tiles, i: nat)
    requires TilesOk(t) && i in t.spans
    ensures t.spans[i].Top() in t.hdr && t.hdr[t.spans[i].Top()].size == 0
    ensures AreasFrom(t, i, t.spans[i].Top()) == {t.spans[i].Top()}
  {
    PageBase(t, i);
    AreaIsOk(t, t.spans[i].Top());
    forall x | x in AreasFrom(t, i, t.spans[i].Top())
      ensures x == t.spans[i].Top()
    {
      AreaLocated(t, x);
    }
  }

  lemma NextArea(t: Tiles, i: nat, a: nat)
    requires TilesOk(t) && i in t.spans && InSpan(t, a, i) && a != t.spans[i].Top()
    ensures a in t.hdr && 8 <= t.hdr[a].size && InSpan(t, a + t.hdr[a].size, i) && a + t.hdr[a].size <= t.spans[i].Top()
    ensures AreasFrom(t, i, a) == AreasFrom(t, i, a + t.hdr[a].size) + {a} && a !in AreasFrom(t, i, a + t.hdr[a].size)
  {
    AreaIsOk(t, a);
    hide TilesOk;
  }

  ghost function AreasOf(t: Tiles, spans: set<nat>): set<nat> {
    set x | x in t.areas && x in t.spanOf && t.spanOf[x] in spans
  }

  lemma {:induction false} SpansAddUp(t: Tiles, spans: set<nat>)
    requires TilesOk(t) && spans <= t.spans.Keys
    ensures Total(Only(Extents(t), AreasOf(t, spans))) == Total(Only(SpanLengths(t.spans), spans))
    decreases |spans|
  {
    hide Total, Only, Extents, AreasFrom;
    var e, l := Extents(t), SpanLengths(t.spans);
    if spans == {} {
      assert AreasOf(t, spans) == {};
      OnlyNone(e);
      OnlyNone(l);
    } else {
      hide AreasOf;
      var i :| i in spans;
      var rest := spans - {i};
      assert spans == rest + {i};
      SpansAddUp(t, rest);
      WholeSpan(t, i);
      SpanAreas(t, spans, i);
      OnlyUnion(e, AreasOf(t, rest), AreasFrom(t, i, t.spans[i].base));
      OnlyUnion(l, rest, {i});
      OnlyOne(l, i);
    }
  }

  lemma WholeSpan(t: Tiles, i: nat)
    requires TilesOk(t) && i in t.spans
    ensures Total(Only(Extents(t), AreasFrom(t, i, t.spans[i].base))) == t.spans[i].length
  {
    PageBase(t, i);
    RestOfSpan(t, i, t.spans[i].base);
  }

  lemma SpanAreas(t: Tiles, spans: set<nat>, i: nat)
    requires TilesOk(t) && i in spans && i in t.spans
    ensures AreasOf(t, spans) == AreasOf(t, spans - {i}) + AreasFrom(t, i, t.spans[i].base)
    ensures AreasOf(t, spans - {i}) !! AreasFrom(t, i, t.spans[i].base)
  {
    forall x | x in t.areas
      ensures Located(t, x)
    {
      AreaLocated(t, x);
    }
    hide TilesOk;
  }

  /** Areas that are neither free nor in use. */
  ghost function Sentinels(t: Tiles): map<nat, nat> {
    Only(Extents(t), set a | a in t.areas && !IsFree(t, a) && !IsUsed(t, a))
  }

  /** What the spans hold is exactly the free areas, the blocks in use and the sentinels. */
  lemma SpansHoldTheirAreas(t: Tiles)
    requires TilesOk(t)
    ensures Total(SpanLengths(t.spans)) == Total(FreeAreas(t)) + Total(UsedAreas(t)) + Total(Sentinels(t))
  {
    hide Total, Only;
    var e := Extents(t);
    var free, used, sentinels := set a | a in t.areas && IsFree(t, a), set a | a in t.areas
        && IsUsed(t, a), set a | a in t.areas && !IsFree(t, a) && !IsUsed(t, a);
    SpansAddUp(t, t.spans.Keys);
    AllAreas(t);
    assert AreasOf(t, t.spans.Keys) == free + used + sentinels;
    OnlyUnion(e, free, used);
    OnlyUnion(e, free + used, sentinels);
    AreaKinds(t, free, used);
    AllKeys(SpanLengths(t.spans));
    assert SpanLengths(t.spans).Keys == t.spans.Keys;
    assert Sentinels(t) == Only(e, sentinels);
  }

  lemma AllAreas(t: Tiles)
    requires TilesOk(t)
    ensures forall x :: x in t.areas ==>
              && x in t.hdr && x in t.spanOf && t.spanOf[x] in t.spans
              && (IsFree(t, x) || IsUsed(t, x) ==> 0 < t.hdr[x].size)
  {
    forall x | x in t.areas
      ensures x in t.hdr && x in t.spanOf && t.spanOf[x] in t.spans
      ensures IsFree(t, x) || IsUsed(t, x) ==> 0 < t.hdr[x].size
    {
      Blocks(t, x);
    }
  }

  lemma AreaKinds(t: Tiles, free: set<nat>, used: set<nat>)
    requires forall x :: x in t.areas ==> x in t.hdr && (IsFree(t, x) || IsUsed(t, x) ==> 0 < t.hdr[x].size)
    requires free == (set a | a in t.areas && IsFree(t, a)) && used == (set a | a in t.areas && IsUsed(t, a))
    ensures FreeAreas(t) == Only(Extents(t), free) && UsedAreas(t) == Only(Extents(t), used)
  {
  }

  lemma AllKeys(m: map<nat, nat>)
    ensures Only(m, m.Keys) == m
  {
  }
}
