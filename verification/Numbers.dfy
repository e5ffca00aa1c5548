/** Small facts that several components use. */
module Numbers {
  function Min(a: nat, b: nat): nat { if a < b then a else b }

  function Max(a: nat, b: nat): nat { if a < b then b else a }

  lemma SubsetSize(a: set<nat>, b: set<nat>)
    requires b <= a
    ensures |a - b| == |a| - |b| && (a != b ==> |b| < |a|)
  {
    assert (a - b) + b == a && (a - b) !! b;
    if a != b {
      var x :| x in a && x !in b;
      assert x in a - b;
    }
  }
}
