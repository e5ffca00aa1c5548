/** The steps of the monitor that concern its wait list, carried out on the pointers. */
module MonitorLists {
  import opened Chains
  import opened Monitor
  import opened MonitorRuns
  import opened WaitLists

  /** The list in memory is the list of the monitor's state. */
  ghost predicate Mirrors(w: WaitList, s: State)
    reads w
  {
    w.Valid() && w.Pointers() == s.list && w.queue == s.queue
  }

  /** A waiter makes its entry and appends it. */
  method AddEntryTo(w: WaitList, ghost s: State, t: nat)
    requires Mirrors(w, s) && Standing(s, t, Add)
    modifies w
    ensures Mirrors(w, Apply(s, t, Add))
  {
    AddStands(s, t);
    NotQueued(s, t);
    w.next := w.next[t := 0];
    ChainFrame(s.list.next, w.next, w.queue);
    w.AddToWaitList(t);
  }

  /** A waiter whose time is up looks for its entry by following the links. */
  method CheckEntryIn(w: WaitList, ghost s: State, t: nat) returns (removed: bool)
    requires Mirrors(w, s) && Standing(s, t, Check)
    modifies w
    ensures Mirrors(w, Apply(s, t, Check)) && Goes(s, t, Check) == TimeoutDone(removed)
  {
    hide Inv;
    CheckStands(s, t);
    ghost var at := if t in s.queue then IndexOf(s.queue, t) else 0;
    removed := w.MaybeRemoveFromWaitList(t, at);
  }

  /** A notifier takes the first entry, or all entries, off the list. */
  method TakeEntriesFrom(w: WaitList, ghost s: State, t: nat, all: bool) returns (head: nat)
    requires Mirrors(w, s) && Standing(s, t, Take) && At(s, t) == NotifyTake(all)
    modifies w
    ensures Mirrors(w, Apply(s, t, Take)) && Goes(s, t, Take) == NotifyTaken(all, head)
    ensures head == Head(Apply(s, t, Take).wake)
  {
    hide Inv;
    TakeStands(s, t);
    if all {
      head := w.TakeAll();
    } else {
      head := w.TakeFirst();
    }
  }

  lemma NotQueued(s: State, t: nat)
    requires Inv(s) && t !in s.alive
    ensures t !in s.queue
  {
  }
}
