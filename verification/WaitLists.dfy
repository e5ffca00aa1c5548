/** The list of waiting threads inside the CMSIS monitor: singly linked, with a first and a last pointer. */
module WaitLists {
  import opened Chains

  /** The two list pointers and the next pointers of all entries; 0 is NULL. */
  datatype Links = Links(first: nat, last: nat, next: map<nat, nat>)

  ghost predicate LinksOk(l: Links, queue: seq<nat>) {
    && Chained(l.next, queue)
    && l.first == Head(queue)
    && l.last == (if queue == [] then 0 else queue[|queue| - 1])
  }

  // ----- appending -----

  function Added(l: Links, e: nat): Links {
    if l.first == 0 then l.(first := e, last := e) else l.(next := l.next[l.last := e], last := e)
  }

  lemma AddedOk(l: Links, queue: seq<nat>, e: nat)
    requires LinksOk(l, queue) && e !in queue && e != 0 && e in l.next && l.next[e] == 0
    ensures LinksOk(Added(l, e), queue + [e])
  {
    var l', queue' := Added(l, e), queue + [e];
    forall i | 0 <= i < |queue'|
      ensures LinkedAt(l'.next, queue', i)
    {
      if i < |queue| { assert LinkedAt(l.next, queue, i); }
    }
  }

  // ----- taking the first, taking all -----

  function TookFirst(l: Links): Links {
    if l.first == 0 || l.first !in l.next then l
    else l.(first := l.next[l.first], last := if l.first == l.last then 0 else l.last)
  }

  lemma TookFirstOk(l: Links, queue: seq<nat>)
    requires LinksOk(l, queue) && queue != []
    ensures LinksOk(TookFirst(l), queue[1..])
  {
    ChainPop(l.next, queue);
  }

  function TookAll(l: Links): Links {
    l.(first := 0, last := 0)
  }

  lemma TookAllOk(l: Links, queue: seq<nat>)
    requires LinksOk(l, queue)
    ensures LinksOk(TookAll(l), [])
  {
  }

  // ----- removing an entry -----

  /** Entry e, whose predecessor is prev (0 if it is the first), leaves the list. */
  function Unlinked(l: Links, prev: nat, e: nat): Links
    requires e in l.next
  {
    var last := if l.last == e then prev else l.last;
    if prev == 0 then l.(first := l.next[e], last := last) else l.(next := l.next[prev := l.next[e]], last := last)
  }

  lemma UnlinkedOk(l: Links, queue: seq<nat>, i: nat)
    requires LinksOk(l, queue) && i < |queue|
    ensures queue[i] in l.next
    ensures LinksOk(Unlinked(l, Before(queue, i), queue[i]), Without(queue, i))
  {
    ChainUnlink(l.next, queue, i);
  }

  // ----- the monitor's operations on the list -----

  class WaitList {
    var first: nat
    var last: nat
    var next: map<nat, nat>
    /** The waiting entries in order of arrival. */
    ghost var queue: seq<nat>

    ghost function Pointers(): Links
      reads this
    {
      Links(first, last, next)
    }

    ghost predicate Valid()
      reads this
    {
      LinksOk(Pointers(), queue)
    }

    constructor ()
      ensures Valid() && queue == []
    {
      first, last, next, queue := 0, 0, map[], [];
    }

    /** A new entry, not linked to anything, goes to the end. */
    method AddToWaitList(e: nat)
      requires Valid() && e != 0 && e !in queue && e in next && next[e] == 0
      modifies this
      ensures Valid() && queue == old(queue) + [e] && Pointers() == Added(old(Pointers()), e)
    {
      AddedOk(Pointers(), queue, e);
      if first == 0 {
        first := e;
      } else {
        next := next[last := e];
      }
      last := e;
      queue := queue + [e];
    }

    /** What a notification does to the list: the longest waiting entry is taken out. */
    method TakeFirst() returns (e: nat)
      requires Valid()
      modifies this
      ensures Valid() && e == Head(old(queue))
      ensures queue == if old(queue) == [] then [] else old(queue)[1..]
      ensures Pointers() == TookFirst(old(Pointers()))
    {
      e := first;
      if e != 0 {
        TookFirstOk(Pointers(), queue);
        assert LinkedAt(next, queue, 0);
        if first == last {
          last := 0;
        }
        first := next[first];
        queue := queue[1..];
      }
    }

    /** What notifying everyone does to the list: it becomes empty and the old chain is kept. */
    method TakeAll() returns (e: nat)
      requires Valid()
      modifies this
      ensures Valid() && queue == [] && e == old(first) && Chained(next, old(queue))
      ensures Pointers() == TookAll(old(Pointers()))
    {
      e := first;
      first, last, queue := 0, 0, [];
    }

    /** Take out an entry if it is still there. */
    method MaybeRemoveFromWaitList(e: nat, ghost at: nat) returns (removed: bool)
      requires Valid() && e != 0 && (e in queue ==> at < |queue| && queue[at] == e)
      modifies this
      ensures Valid() && removed == (e in old(queue))
      ensures !removed ==> queue == old(queue) && Pointers() == old(Pointers())
      ensures removed ==>
                && queue == Without(old(queue), at) && e in old(next)
                && Pointers() == Unlinked(old(Pointers()), Before(old(queue), at), e)
    {
      var prev, curr := 0, first;
      ghost var i := 0;
      while curr != e
        invariant i <= |queue| && (queue != [] ==> i < |queue|)
        invariant curr == (if queue == [] then 0 else queue[i]) && prev == Before(queue, i)
        invariant forall j :: 0 <= j < i ==> queue[j] != e
        decreases |queue| - i
      {
        if curr == last {
          LastIsLast(Pointers(), queue, i);
          return false;
        }
        assert LinkedAt(next, queue, i);
        prev := curr;
        curr := next[curr];
        i := i + 1;
      }
      UnlinkedOk(Pointers(), queue, i);
      assert at == i;
      if prev == 0 {
        first := next[e];
      } else {
        next := next[prev := next[e]];
      }
      if last == e {
        last := prev;
      }
      queue := Without(queue, i);
      removed := true;
    }
  }

  lemma LastIsLast(l: Links, queue: seq<nat>, i: nat)
    requires LinksOk(l, queue) && (queue != [] ==> i < |queue| && queue[i] == l.last)
    ensures queue != [] ==> i == |queue| - 1
  {
  }
}
