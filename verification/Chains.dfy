/**
 Singly linked lists in memory: a map of next pointers, with 0 for NULL, that leads through a sequence of addresses.
 */
module Chains {

  ghost predicate Distinct(q: seq<nat>) {
    0 !in q && forall i, j :: 0 <= i < j < |q| ==> q[i] != q[j]
  }

  ghost function Head(q: seq<nat>): nat {
    if q == [] then 0 else q[0]
  }

  ghost function After(q: seq<nat>, i: nat): nat {
    if i + 1 < |q| then q[i + 1] else 0
  }

  ghost function Before(q: seq<nat>, i: nat): nat
    requires i <= |q|
  {
    if i == 0 then 0 else q[i - 1]
  }

  ghost function Without(q: seq<nat>, i: nat): seq<nat>
    requires i < |q|
  {
    q[..i] + q[i + 1..]
  }

  ghost predicate LinkedAt(next: map<nat, nat>, q: seq<nat>, i: nat)
    requires i < |q|
  {
    q[i] in next && next[q[i]] == After(q, i)
  }

  /** The next pointers lead from the first address of q through all of it to NULL. */
  ghost predicate Chained(next: map<nat, nat>, q: seq<nat>) {
    Distinct(q) && forall i {:trigger LinkedAt(next, q, i)} :: 0 <= i < |q| ==> LinkedAt(next, q, i)
  }

  lemma EmptyChain(next: map<nat, nat>)
    ensures Chained(next, [])
  {
  }

  lemma EmptyHead(next: map<nat, nat>, q: seq<nat>)
    requires Chained(next, q) && Head(q) == 0
    ensures q == []
  {
  }

  /** Next pointers that agree on the sequence chain it too. */
  lemma ChainFrame(next: map<nat, nat>, next': map<nat, nat>, q: seq<nat>)
    requires Chained(next, q) && forall x :: x in q && x in next ==> x in next' && next'[x] == next[x]
    ensures Chained(next', q)
  {
    forall i | 0 <= i < |q|
      ensures LinkedAt(next', q, i)
    {
      assert LinkedAt(next, q, i);
    }
  }

  lemma ChainPush(next: map<nat, nat>, q: seq<nat>, e: nat)
    requires Chained(next, q) && e !in q && e != 0 && e in next && next[e] == Head(q)
    ensures Chained(next, [e] + q)
  {
    forall i | 0 <= i < |[e] + q|
      ensures LinkedAt(next, [e] + q, i)
    {
      if i > 0 { assert LinkedAt(next, q, i - 1); }
    }
  }

  lemma ChainPop(next: map<nat, nat>, q: seq<nat>)
    requires Chained(next, q) && q != []
    ensures Chained(next, q[1..]) && q[0] in next && next[q[0]] == Head(q[1..])
    ensures forall x :: x in q[1..] <==> x in q && x != q[0]
  {
    assert LinkedAt(next, q, 0);
    forall i | 0 <= i < |q[1..]|
      ensures LinkedAt(next, q[1..], i)
    {
      assert LinkedAt(next, q, i + 1);
    }
  }

  /** One chain in front of another: the last entry of the first must be made to point to the second. */
  lemma ChainAppend(next: map<nat, nat>, q: seq<nat>, r: seq<nat>)
    requires Chained(next, q) && Chained(next, r) && q != [] && forall x :: x in q ==> x !in r
    ensures Chained(next[q[|q| - 1] := Head(r)], q + r)
  {
    var last, s := q[|q| - 1], q + r;
    var next' := next[last := Head(r)];
    assert forall i :: 0 <= i < |s| ==> s[i] == if i < |q| then q[i] else r[i - |q|];
    forall i, j | 0 <= i < j < |s|
      ensures s[i] != s[j]
    {
      if i < |q| <= j { assert q[i] in q && r[j - |q|] in r; }
    }
    forall i | 0 <= i < |s|
      ensures LinkedAt(next', s, i)
    {
      if i < |q| - 1 {
        assert LinkedAt(next, q, i);
        assert q[i] != last;
      } else if i >= |q| {
        assert LinkedAt(next, r, i - |q|);
        assert r[i - |q|] in r && last in q;
      }
    }
  }

  /** Taking out the i-th entry: its predecessor, if any, is made to point past it. */
  lemma ChainUnlink(next: map<nat, nat>, q: seq<nat>, i: nat)
    requires Chained(next, q) && i < |q|
    ensures q[i] in next && next[q[i]] == After(q, i)
    ensures Chained(if i == 0 then next else next[q[i - 1] := next[q[i]]], Without(q, i))
    ensures forall x :: x in Without(q, i) <==> x in q && x != q[i]
  {
    assert LinkedAt(next, q, i);
    var next', q' := if i == 0 then next else next[q[i - 1] := next[q[i]]], Without(q, i);
    forall j | 0 <= j < |q'|
      ensures LinkedAt(next', q', j)
    {
      assert LinkedAt(next, q, if j < i then j else j + 1);
    }
    forall x | x in q && x != q[i]
      ensures x in q'
    {
      var j :| 0 <= j < |q| && q[j] == x;
      assert q'[if j < i then j else j - 1] == x;
    }
  }
}
