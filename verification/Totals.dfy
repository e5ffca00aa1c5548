/** The sum of the values of a finite map. */
module Totals {
  ghost function Total(m: map<nat, nat>): nat
    decreases |m|
  {
    if m == map[] then 0
    else
      var k :| k in m;
      assert (m - {k}).Keys == m.Keys - {k};
      m[k] + Total(m - {k})
  }

  lemma {:induction false} TotalRemove(m: map<nat, nat>, k: nat)
    requires k in m
    ensures Total(m) == m[k] + Total(m - {k})
    decreases |m|
  {
    assert m != map[];
    var j :| j in m && Total(m) == m[j] + Total(m - {j});
    if j != k {
      var n := m - {j};
      assert n.Keys == m.Keys - {j};
      TotalRemove(n, k);
      var n' := m - {k};
      assert n'.Keys == m.Keys - {k};
      TotalRemove(n', j);
      assert n - {k} == n' - {j};
    }
  }

  lemma TotalAdd(m: map<nat, nat>, k: nat, v: nat)
    requires k !in m
    ensures Total(m[k := v]) == Total(m) + v
  {
    var n := m[k := v];
    TotalRemove(n, k);
    assert n - {k} == m;
  }

  lemma EmptyTotal()
    ensures Total(map[]) == 0
  {
  }
}
