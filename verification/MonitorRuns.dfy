/** What holds in every run of the monitor. */
module MonitorRuns {
  import opened Chains
  import opened Monitor
  import opened WaitLists

  predicate OwnsMutex(pc: Pc) {
    pc.Critical? || pc.WaitEnter? || pc.WaitAdd? || pc.WaitAdded? || pc.WaitUnlock? || Notifying(pc)
  }

  predicate Notifying(pc: Pc) {
    pc.NotifyEnter? || pc.NotifyTake? || pc.NotifyTaken? || pc.NotifyWake? || pc.NotifySignal?
  }

  predicate OwnsInternal(pc: Pc) {
    pc.WaitAdd? || pc.WaitAdded? || pc.TimeoutCheck? || pc.TimeoutDone? || pc.NotifyTake? || pc.NotifyTaken?
  }

  predicate HasEntry(pc: Pc) {
    pc.WaitAdded? || pc.WaitUnlock? || pc.Sleeping? || pc.TimedOut? || pc.TimeoutCheck? || pc.TimeoutDone? || pc.Relock?
  }

  /** The waiter has not yet been told whether its semaphore came in time. */
  predicate BeforeSemaphore(pc: Pc) {
    pc.WaitAdded? || pc.WaitUnlock? || pc.Sleeping?
  }

  predicate KnowsTimeout(pc: Pc) {
    (pc.TimeoutDone? && pc.removed) || (pc.Relock? && pc.timeout)
  }

  predicate KnowsNotified(pc: Pc) {
    (pc.TimeoutDone? && !pc.removed) || (pc.Relock? && !pc.timeout)
  }

  /** Both locks are held by at most the thread that their owner field names. */
  ghost predicate LocksOk(s: State) {
    && (forall t {:trigger At(s, t)} :: OwnsMutex(At(s, t)) <==> t == s.mutex != 0)
    && (forall t {:trigger At(s, t)} :: OwnsInternal(At(s, t)) <==> t == s.internal != 0)
    && At(s, 0).Outside?
  }

  /** An entry is alive exactly while its thread is inside a wait. */
  ghost predicate EntriesOk(s: State) {
    && (forall t {:trigger At(s, t)} :: t in s.alive <==> HasEntry(At(s, t)))
    && s.alive == s.sem.Keys == s.status.Keys == s.ticket.Keys
  }

  ghost predicate ListOk(s: State) {
    && LinksOk(s.list, s.queue)
    && (forall t :: t in s.queue <==> t in s.status && s.status[t] == Queued)
  }

  /** The entries that a notifier has taken are those it has still to wake, in order. */
  ghost predicate WakeOk(s: State) {
    && Distinct(s.wake)
    && (forall t :: t in s.wake <==> t in s.status && s.status[t] == Taken)
    && WakerOk(s, At(s, s.mutex))
  }

  ghost predicate WakerOk(s: State, pc: Pc) {
    if pc.NotifyTaken? || pc.NotifyWake? then
      pc.head == Head(s.wake) && if pc.all then Chained(s.list.next, s.wake) else |s.wake| <= 1
    else if pc.NotifySignal? then
      && s.wake != [] && pc.head == s.wake[0]
      && if pc.all then Chained(s.list.next, s.wake) && pc.rest == After(s.wake, 0) else |s.wake| == 1 && pc.rest == 0
    else
      s.wake == []
  }

  /** What a waiter believes agrees with what has become of its entry; tokens are never lost or doubled. */
  ghost predicate WaiterOk(s: State, t: nat)
    requires t in s.status && t in s.sem
  {
    && (s.status[t] == SelfRemoved <==> KnowsTimeout(At(s, t)))
    && (KnowsNotified(At(s, t)) ==> s.status[t] == Taken || s.status[t] == Signalled)
    && s.sem[t] <= 1 && (s.sem[t] == 1 ==> s.status[t] == Signalled)
    && (BeforeSemaphore(At(s, t)) && s.status[t] == Signalled ==> s.sem[t] == 1)
  }

  ghost predicate WaitersOk(s: State) {
    forall t {:trigger WaiterOk(s, t)} :: t in s.status && t in s.sem ==> WaiterOk(s, t)
  }

  /** Every wait that a notifier picked is still going on or has reported "notified"; no other has. */
  ghost predicate HistoryOk(s: State) {
    && (forall t, u :: t in s.ticket && u in s.ticket && t != u ==> s.ticket[t] != s.ticket[u])
    && (forall t :: t in s.ticket ==> s.ticket[t] < s.issued && s.ticket[t] !in s.reports)
    && (forall k :: k in s.reports ==> k < s.issued && (s.reports[k] <==> k !in s.taken))
    && (forall t :: t in s.ticket && t in s.status ==>
           (s.ticket[t] in s.taken <==> s.status[t] == Taken || s.status[t] == Signalled))
    && (forall k :: k in s.taken ==> k in s.reports || exists t :: t in s.ticket && s.ticket[t] == k)
  }

  ghost predicate Inv(s: State) {
    LocksOk(s) && EntriesOk(s) && ListOk(s) && WakeOk(s) && WaitersOk(s) && HistoryOk(s)
  }

  ghost predicate Initial(s: State) {
    s == State(0, 0, Links(0, 0, map[]), map[], {}, map[], [], [], map[], map[], 0, {}, map[])
  }

  lemma InitialOk(s: State)
    requires Initial(s)
    ensures Inv(s)
  {
  }

  // ----- locks -----

  ghost predicate Moved(s: State, s': State, t: nat, pc: Pc) {
    forall u {:trigger At(s', u)} :: At(s', u) == if u == t then pc else At(s, u)
  }

  lemma MutexMoves(s: State, t: nat, step: Step)
    requires Enabled(s, t, step) && (OwnsMutex(At(s, t)) <==> t == s.mutex)
    ensures OwnsMutex(Goes(s, t, step)) <==> t == MutexAfter(s, t, step)
    ensures forall u {:trigger At(s, u)} :: u != t && u != 0 ==> (u == MutexAfter(s, t, step) <==> u == s.mutex)
  {
  }

  lemma InternalMoves(s: State, t: nat, step: Step)
    requires Enabled(s, t, step) && (OwnsInternal(At(s, t)) <==> t == s.internal)
    ensures OwnsInternal(Goes(s, t, step)) <==> t == InternalAfter(s, t, step)
    ensures forall u {:trigger At(s, u)} :: u != t && u != 0 ==> (u == InternalAfter(s, t, step) <==> u == s.internal)
  {
  }

  lemma StepMoves(s: State, t: nat, step: Step)
    requires Enabled(s, t, step)
    ensures Moved(s, Apply(s, t, step), t, Goes(s, t, step)) && t != 0
  {
    hide Act, Goes;
  }

  lemma LocksKept(s: State, t: nat, step: Step)
    requires LocksOk(s) && Enabled(s, t, step)
    ensures LocksOk(Apply(s, t, step))
  {
    hide Act, Goes, MutexAfter, InternalAfter, OwnsMutex, OwnsInternal, Enabled;
    StepMoves(s, t, step);
    MutexMoves(s, t, step);
    InternalMoves(s, t, step);
    var s' := Apply(s, t, step);
    forall u
      ensures OwnsMutex(At(s', u)) <==> u == s'.mutex != 0
      ensures OwnsInternal(At(s', u)) <==> u == s'.internal != 0
    {
      assert At(s, u) == At(s, u);
    }
  }

  // ----- steps that only move a thread or change a lock -----

  predicate OnlyMoves(step: Step) {
    !(step.Add? || step.Acquire? || step.Check? || step.Return? || step.Take? || step.Signal?)
  }

  /** Such a step changes neither whether a thread has an entry nor what it knows. */
  lemma MoveKnows(s: State, t: nat, step: Step)
    requires Enabled(s, t, step) && OnlyMoves(step)
    ensures var pc, pc' := At(s, t), Goes(s, t, step);
            && (HasEntry(pc') <==> HasEntry(pc)) && (KnowsTimeout(pc') <==> KnowsTimeout(pc))
            && (KnowsNotified(pc') <==> KnowsNotified(pc)) && (BeforeSemaphore(pc') ==> BeforeSemaphore(pc))
  {
  }

  lemma MoveWaker(s: State, t: nat, step: Step)
    requires Inv(s) && Enabled(s, t, step) && OnlyMoves(step)
    ensures WakerOk(s, if t == MutexAfter(s, t, step) then Goes(s, t, step) else At(s, MutexAfter(s, t, step)))
  {
    hide EntriesOk, ListOk, WaitersOk, HistoryOk;
    assert At(s, t) == At(s, t);
    assert step.NextToWake? && s.wake != [] && At(s, t).all ==> LinkedAt(s.list.next, s.wake, 0);
  }

  /** Two states with the same list, entries and history. */
  ghost predicate SameData(s: State, s': State) {
    && s'.list == s.list && s'.sem == s.sem && s'.alive == s.alive && s'.queue == s.queue && s'.wake == s.wake
    && s'.status == s.status
    && s'.ticket == s.ticket && s'.issued == s.issued && s'.taken == s.taken && s'.reports == s.reports
  }

  lemma MoveActs(s: State, t: nat, step: Step)
    requires Enabled(s, t, step) && OnlyMoves(step)
    ensures SameData(s, Apply(s, t, step)) && Apply(s, t, step).mutex == MutexAfter(s, t, step)
  {
  }

  lemma EntriesFrame(s: State, s': State, t: nat, pc: Pc)
    requires EntriesOk(s) && Moved(s, s', t, pc) && (HasEntry(pc) <==> HasEntry(At(s, t)))
    requires s'.alive == s.alive && s'.sem.Keys == s.sem.Keys && s'.status.Keys == s.status.Keys
    requires s'.ticket.Keys == s.ticket.Keys
    ensures EntriesOk(s')
  {
    hide HasEntry;
  }

  lemma WaitersFrame(s: State, s': State, t: nat, pc: Pc)
    requires WaitersOk(s) && Moved(s, s', t, pc) && SameData(s, s')
    requires var was := At(s, t);
             (KnowsTimeout(pc) <==> KnowsTimeout(was)) && (KnowsNotified(pc) <==> KnowsNotified(was))
                 && (BeforeSemaphore(pc) ==> BeforeSemaphore(was))
    ensures WaitersOk(s')
  {
    hide KnowsTimeout, KnowsNotified, BeforeSemaphore;
    forall u | u in s'.status && u in s'.sem
      ensures WaiterOk(s', u)
    {
      assert WaiterOk(s, u);
    }
  }

  lemma WakeFrame(s: State, s': State)
    requires WakeOk(s) && SameData(s, s') && WakerOk(s, At(s', s'.mutex))
    ensures WakeOk(s')
  {
  }

  lemma MoveKeeps(s: State, t: nat, step: Step)
    requires Inv(s) && Enabled(s, t, step) && OnlyMoves(step)
    ensures Inv(Apply(s, t, step))
  {
    hide LocksOk, EntriesOk, WakeOk, WaitersOk, WakerOk, Goes, MutexAfter, Enabled, HasEntry, KnowsTimeout,
         KnowsNotified, BeforeSemaphore, Act, LinksOk, Apply;
    var s', pc := Apply(s, t, step), Goes(s, t, step);
    LocksKept(s, t, step);
    StepMoves(s, t, step);
    MoveActs(s, t, step);
    MoveKnows(s, t, step);
    MoveWaker(s, t, step);
    EntriesFrame(s, s', t, pc);
    WaitersFrame(s, s', t, pc);
    WakeFrame(s, s');
    HistoryFrame(s, s');
  }

  lemma HistoryFrame(s: State, s': State)
    requires HistoryOk(s) && SameData(s, s')
    ensures HistoryOk(s')
  {
  }

  // ----- a waiter adds its entry -----

  ghost predicate Standing(s: State, t: nat, step: Step) {
    Inv(s) && Enabled(s, t, step)
  }

  lemma AddStands(s: State, t: nat)
    requires Standing(s, t, Add)
    ensures t == s.mutex && t !in s.alive && s.wake == []
  {
    hide ListOk, WaitersOk, HistoryOk;
    assert At(s, t).WaitAdd?;
  }

  lemma AddKeeps(s: State, t: nat)
    requires Standing(s, t, Add)
    ensures Inv(Apply(s, t, Add))
  {
    hide LocksOk, EntriesOk, ListOk, WakeOk, WaitersOk, HistoryOk, Apply, Enabled;
    AddStands(s, t);
    LocksKept(s, t, Add);
    AddEntries(s, t);
    AddList(s, t);
    AddWake(s, t);
    AddWaiters(s, t);
    AddHistory(s, t);
  }

  lemma AddEntries(s: State, t: nat)
    requires Standing(s, t, Add) && t !in s.alive
    ensures EntriesOk(Apply(s, t, Add))
  {
    hide LocksOk, WakeOk, ListOk, WaitersOk, HistoryOk, Added;
    StepMoves(s, t, Add);
  }

  lemma AddWake(s: State, t: nat)
    requires Standing(s, t, Add) && t == s.mutex && t !in s.alive && s.wake == []
    ensures WakeOk(Apply(s, t, Add))
  {
    hide LocksOk, ListOk, WaitersOk, HistoryOk, Added;
    StepMoves(s, t, Add);
  }

  lemma AddList(s: State, t: nat)
    requires Standing(s, t, Add) && t !in s.alive
    ensures ListOk(Apply(s, t, Add))
  {
    hide LocksOk, WakeOk, WaitersOk, HistoryOk;
    var l := s.list.(next := s.list.next[t := 0]);
    ChainFrame(s.list.next, l.next, s.queue);
    AddedOk(l, s.queue, t);
  }

  lemma AddWaiters(s: State, t: nat)
    requires Standing(s, t, Add) && t !in s.alive
    ensures WaitersOk(Apply(s, t, Add))
  {
    hide LocksOk, WakeOk, ListOk, HistoryOk, Added;
    var s' := Apply(s, t, Add);
    StepMoves(s, t, Add);
    forall u | u in s'.status && u in s'.sem
      ensures WaiterOk(s', u)
    {
      if u != t { assert WaiterOk(s, u); }
    }
  }

  lemma AddHistory(s: State, t: nat)
    requires Standing(s, t, Add) && t !in s.alive
    ensures HistoryOk(Apply(s, t, Add))
  {
    hide LocksOk, WakeOk, ListOk, WaitersOk, Added;
    var s' := Apply(s, t, Add);
    forall k | k in s'.taken
      ensures k in s'.reports || exists u :: u in s'.ticket && s'.ticket[u] == k
    {
      if k !in s.reports {
        var u :| u in s.ticket && s.ticket[u] == k;
        assert u in s'.ticket && s'.ticket[u] == k;
      }
    }
  }

  // ----- a sleeper gets its token -----

  lemma AcquireStands(s: State, t: nat)
    requires Standing(s, t, Acquire)
    ensures At(s, t).Sleeping? && t != s.mutex && t in s.alive && t in s.status && t in s.sem
    ensures s.status[t] == Signalled
  {
    hide ListOk, WakeOk, HistoryOk;
    assert At(s, t).Sleeping?;
    assert WaiterOk(s, t);
  }

  lemma AcquireKeeps(s: State, t: nat)
    requires Standing(s, t, Acquire)
    ensures Inv(Apply(s, t, Acquire))
  {
    hide LocksOk, EntriesOk, LinksOk, WakerOk, WaitersOk, HistoryOk, Enabled, HasEntry;
    var s' := Apply(s, t, Acquire);
    AcquireStands(s, t);
    LocksKept(s, t, Acquire);
    StepMoves(s, t, Acquire);
    AcquireWaiters(s, t);
    EntriesFrame(s, s', t, Relock(false)) by { EntryKept(Sleeping(At(s, t).timed), Relock(false)); }
    HistoryIgnores(s, s');
    WakeIgnores(s, s');
  }

  lemma EntryKept(pc: Pc, pc': Pc)
    requires pc.Sleeping? && pc'.Relock?
    ensures HasEntry(pc) && HasEntry(pc')
  {
  }

  lemma AcquireWaiters(s: State, t: nat)
    requires Standing(s, t, Acquire)
    ensures WaitersOk(Apply(s, t, Acquire))
  {
    hide LocksOk, ListOk, WakeOk, HistoryOk;
    var s' := Apply(s, t, Acquire);
    AcquireStands(s, t);
    StepMoves(s, t, Acquire);
    forall u | u in s'.status && u in s'.sem
      ensures WaiterOk(s', u)
    {
      assert WaiterOk(s, u);
    }
  }

  lemma WakeIgnores(s: State, s': State)
    requires WakeOk(s) && s'.wake == s.wake && s'.status == s.status && s'.list == s.list
    requires WakerOk(s, At(s', s'.mutex))
    ensures WakeOk(s')
  {
  }

  lemma HistoryIgnores(s: State, s': State)
    requires HistoryOk(s) && s'.ticket == s.ticket && s'.issued == s.issued && s'.reports == s.reports
    requires s'.taken == s.taken && s'.status == s.status
    ensures HistoryOk(s')
  {
  }

  // ----- after a timeout the waiter looks for its entry -----

  lemma CheckStands(s: State, t: nat)
    requires Standing(s, t, Check)
    ensures At(s, t).TimeoutCheck? && t != s.mutex && t in s.alive && t in s.status && t in s.sem
    ensures s.status[t] != SelfRemoved
    ensures t in s.queue ==> s.status[t] == Queued && t in s.list.next && t !in s.wake
    ensures t !in s.queue ==> s.status[t] == Taken || s.status[t] == Signalled
  {
    assert At(s, t).TimeoutCheck?;
    assert WaiterOk(s, t);
    hide HistoryOk;
    if t in s.queue {
      var i :| 0 <= i < |s.queue| && s.queue[i] == t;
      assert LinkedAt(s.list.next, s.queue, i);
    }
  }

  lemma CheckKeeps(s: State, t: nat)
    requires Standing(s, t, Check)
    ensures Inv(Apply(s, t, Check))
  {
    hide LocksOk, EntriesOk, ListOk, WakeOk, WaitersOk, HistoryOk, Apply, Enabled;
    CheckStands(s, t);
    LocksKept(s, t, Check);
    CheckEntries(s, t);
    CheckList(s, t);
    CheckWake(s, t);
    CheckWaiters(s, t);
    CheckHistory(s, t);
  }

  lemma CheckEntries(s: State, t: nat)
    requires Standing(s, t, Check)
    ensures EntriesOk(Apply(s, t, Check))
  {
    hide LocksOk, WakeOk, ListOk, WaitersOk, HistoryOk, Unlinked, IndexOf;
    CheckStands(s, t);
    StepMoves(s, t, Check);
  }

  lemma CheckList(s: State, t: nat)
    requires Standing(s, t, Check)
    ensures ListOk(Apply(s, t, Check))
  {
    hide LocksOk, WaitersOk, WakeOk, HistoryOk, EntriesOk, Unlinked;
    CheckStands(s, t);
    if t in s.queue {
      var i := IndexOf(s.queue, t);
      UnlinkedOk(s.list, s.queue, i);
      assert Apply(s, t, Check).queue == Without(s.queue, i);
      ChainUnlink(s.list.next, s.queue, i);
    }
  }

  /** What a notifier has to wake is a chain of other entries. */
  lemma CheckWake(s: State, t: nat)
    requires Standing(s, t, Check)
    ensures WakeOk(Apply(s, t, Check))
  {
    hide LocksOk, WaitersOk, ListOk, HistoryOk, EntriesOk, Unlinked, Chained;
    CheckStands(s, t);
    StepMoves(s, t, Check);
    if t in s.queue { WakeChainKept(s, IndexOf(s.queue, t)); }
  }

  lemma WakeChainKept(s: State, i: nat)
    requires ListOk(s) && WakeOk(s) && i < |s.queue|
    ensures s.queue[i] in s.list.next
    ensures Chained(s.list.next, s.wake) ==> Chained(Unlinked(s.list, Before(s.queue, i), s.queue[i]).next, s.wake)
  {
    assert LinkedAt(s.list.next, s.queue, i);
    if Chained(s.list.next, s.wake) {
      ChainFrame(s.list.next, Unlinked(s.list, Before(s.queue, i), s.queue[i]).next, s.wake);
    }
  }

  lemma CheckWaiters(s: State, t: nat)
    requires Standing(s, t, Check)
    ensures WaitersOk(Apply(s, t, Check))
  {
    hide LocksOk, WakeOk, ListOk, HistoryOk, Unlinked, IndexOf;
    CheckStands(s, t);
    var s' := Apply(s, t, Check);
    StepMoves(s, t, Check);
    forall u | u in s'.status && u in s'.sem
      ensures WaiterOk(s', u)
    {
      assert WaiterOk(s, u);
    }
  }

  lemma CheckHistory(s: State, t: nat)
    requires Standing(s, t, Check)
    ensures HistoryOk(Apply(s, t, Check))
  {
    hide LocksOk, WakeOk, ListOk, WaitersOk, Unlinked, IndexOf;
    CheckStands(s, t);
  }

  // ----- a waiter returns -----

  lemma ReturnStands(s: State, t: nat)
    requires Standing(s, t, Return)
    ensures At(s, t).Relock? && t in s.alive && t in s.status && t in s.sem && t in s.ticket && s.wake == []
    ensures s.status[t] == if At(s, t).timeout then SelfRemoved else Signalled
  {
    assert At(s, t).Relock?;
    assert WaiterOk(s, t);
    hide HistoryOk;
  }

  lemma ReturnKeeps(s: State, t: nat)
    requires Standing(s, t, Return)
    ensures Inv(Apply(s, t, Return))
  {
    hide LocksOk, EntriesOk, ListOk, WakeOk, WaitersOk, HistoryOk, Apply, Enabled;
    LocksKept(s, t, Return);
    ReturnEntries(s, t);
    ReturnList(s, t);
    ReturnWaiters(s, t);
    ReturnHistory(s, t);
  }

  lemma ReturnEntries(s: State, t: nat)
    requires Standing(s, t, Return)
    ensures EntriesOk(Apply(s, t, Return))
  {
    hide LocksOk, WakeOk, ListOk, WaitersOk, HistoryOk;
    ReturnStands(s, t);
    StepMoves(s, t, Return);
  }

  lemma ReturnList(s: State, t: nat)
    requires Standing(s, t, Return)
    ensures ListOk(Apply(s, t, Return)) && WakeOk(Apply(s, t, Return))
  {
    hide LocksOk, WaitersOk, HistoryOk, LinksOk;
    ReturnStands(s, t);
    StepMoves(s, t, Return);
  }

  lemma ReturnWaiters(s: State, t: nat)
    requires Standing(s, t, Return)
    ensures WaitersOk(Apply(s, t, Return))
  {
    hide LocksOk, WakeOk, ListOk, HistoryOk;
    ReturnStands(s, t);
    var s' := Apply(s, t, Return);
    StepMoves(s, t, Return);
    forall u | u in s'.status && u in s'.sem
      ensures WaiterOk(s', u)
    {
      assert WaiterOk(s, u);
    }
  }

  lemma ReturnHistory(s: State, t: nat)
    requires Standing(s, t, Return)
    ensures HistoryOk(Apply(s, t, Return))
  {
    hide LocksOk, WakeOk, ListOk, WaitersOk, EntriesOk, HistoryOk;
    ReturnStands(s, t);
    var timeout := At(s, t).timeout;
    WaitReported(s, Finish(s, t, timeout), t, timeout);
    HistoryIgnores(Finish(s, t, timeout), Apply(s, t, Return));
  }

  lemma WaitReported(s: State, s': State, t: nat, timeout: bool)
    requires HistoryOk(s) && t in s.ticket && t in s.status
    requires s.status[t] == (if timeout then SelfRemoved else Signalled)
    requires s'.ticket == s.ticket - {t} && s'.status == s.status - {t} && s'.taken == s.taken && s'.issued == s.issued
    requires s'.reports == s.reports[s.ticket[t] := timeout]
    ensures HistoryOk(s')
  {
    forall k | k in s'.taken && k !in s'.reports
      ensures exists u :: u in s'.ticket && s'.ticket[u] == k
    {
      var u :| u in s.ticket && s.ticket[u] == k;
      assert u in s'.ticket;
    }
  }

  // ----- a notifier takes entries -----

  lemma TakeStands(s: State, t: nat)
    requires Standing(s, t, Take)
    ensures At(s, t).NotifyTake? && t == s.mutex && s.wake == []
  {
    hide ListOk, WaitersOk, HistoryOk, EntriesOk;
    assert At(s, t).NotifyTake?;
  }

  /** The entries that the notifier takes. */
  ghost function Chosen(s: State, all: bool): seq<nat> {
    if all then s.queue else if s.queue == [] then [] else [s.queue[0]]
  }

  lemma TakeEffect(s: State, all: bool)
    requires ListOk(s) && s.wake == [] && s.status.Keys == s.ticket.Keys
    ensures var s', es := TakeEntries(s, all), Chosen(s, all);
            && s'.wake == es && s'.queue == s.queue[|es|..] && s'.status.Keys == s.status.Keys && Distinct(es)
            && (forall x :: x in s.status ==> s'.status[x] == if x in es then Taken else s.status[x])
            && (forall k :: k in s'.taken <==> k in s.taken || exists x :: x in es && x in s.ticket && s.ticket[x] == k)
            && LinksOk(s'.list, s'.queue) && s'.list.next == s.list.next
  {
    var s', es := TakeEntries(s, all), Chosen(s, all);
    if all {
      TookAllOk(s.list, s.queue);
    } else if s.queue != [] {
      TookFirstOk(s.list, s.queue);
    }
    assert forall x :: x in es ==> x in s.queue && x in s.status;
    assert s'.status.Keys == s.status.Keys;
    hide ListOk, LinksOk, TookAll, TookFirst;
  }

  lemma TakeKeeps(s: State, t: nat)
    requires Standing(s, t, Take)
    ensures Inv(Apply(s, t, Take))
  {
    hide LocksOk, EntriesOk, ListOk, WakeOk, WaitersOk, HistoryOk, Apply, Enabled;
    LocksKept(s, t, Take);
    TakeEntriesOk(s, t);
    TakeList(s, t);
    TakeWake(s, t);
    TakeWaiters(s, t);
    TakeHistory(s, t);
  }

  lemma TakeEntriesOk(s: State, t: nat)
    requires Standing(s, t, Take)
    ensures EntriesOk(Apply(s, t, Take))
  {
    hide LocksOk, WakeOk, ListOk, WaitersOk, HistoryOk, TakeEntries;
    TakeStands(s, t);
    StepMoves(s, t, Take);
    TakeEffect(s, At(s, t).all);
    TakeRest(s, At(s, t).all);
  }

  lemma TakeRest(s: State, all: bool)
    ensures var s' := TakeEntries(s, all);
            s'.sem == s.sem && s'.alive == s.alive && s'.ticket == s.ticket && s'.issued == s.issued
                && s'.reports == s.reports
  {
  }

  lemma TakeList(s: State, t: nat)
    requires Standing(s, t, Take)
    ensures ListOk(Apply(s, t, Take))
  {
    hide LocksOk, WakeOk, WaitersOk, HistoryOk, TakeEntries, Chained;
    TakeStands(s, t);
    TakeEffect(s, At(s, t).all);
    QueueTail(s, At(s, t).all);
  }

  lemma QueueTail(s: State, all: bool)
    requires ListOk(s)
    ensures |Chosen(s, all)| <= |s.queue|
    ensures forall x :: x in s.queue[|Chosen(s, all)|..] <==> x in s.queue && x !in Chosen(s, all)
  {
  }

  lemma TakeWake(s: State, t: nat)
    requires Standing(s, t, Take)
    ensures WakeOk(Apply(s, t, Take))
  {
    hide LocksOk, WaitersOk, HistoryOk, TakeEntries;
    TakeStands(s, t);
    StepMoves(s, t, Take);
    TakeEffect(s, At(s, t).all);
    TakeMutex(s, t);
  }

  lemma TakeMutex(s: State, t: nat)
    requires Enabled(s, t, Take)
    ensures Apply(s, t, Take).mutex == s.mutex
  {
  }

  lemma TakeWaiters(s: State, t: nat)
    requires Standing(s, t, Take)
    ensures WaitersOk(Apply(s, t, Take))
  {
    hide LocksOk, WakeOk, HistoryOk, TakeEntries, LinksOk;
    TakeStands(s, t);
    StepMoves(s, t, Take);
    TakeEffect(s, At(s, t).all);
    TakeRest(s, At(s, t).all);
    var s' := Apply(s, t, Take);
    forall u | u in s'.status && u in s'.sem
      ensures WaiterOk(s', u)
    {
      assert WaiterOk(s, u);
    }
  }

  lemma TakeHistory(s: State, t: nat)
    requires Standing(s, t, Take)
    ensures HistoryOk(Apply(s, t, Take))
  {
    hide LocksOk, WakeOk, WaitersOk, HistoryOk, TakeEntries, LinksOk;
    TakeStands(s, t);
    var all := At(s, t).all;
    TakeEffect(s, all);
    TakeRest(s, all);
    WaitsTaken(s, TakeEntries(s, all), Chosen(s, all));
    HistoryIgnores(TakeEntries(s, all), Apply(s, t, Take));
  }

  lemma WaitsTaken(s: State, s': State, es: seq<nat>)
    requires HistoryOk(s) && s'.ticket == s.ticket && s'.issued == s.issued && s'.reports == s.reports
    requires s'.status.Keys == s.status.Keys == s.ticket.Keys
    requires forall x :: x in es ==> x in s.status && s.status[x] == Queued
    requires forall x :: x in s.status ==> s'.status[x] == if x in es then Taken else s.status[x]
    requires forall k :: k in s'.taken <==> k in s.taken || exists x :: x in es && x in s.ticket && s.ticket[x] == k
    ensures HistoryOk(s')
  {
  }

  // ----- a notifier releases a semaphore -----

  lemma SignalStands(s: State, t: nat)
    requires Standing(s, t, Signal)
    ensures At(s, t).NotifySignal? && t == s.mutex && s.wake != [] && s.wake[0] == At(s, t).head
    ensures s.wake[0] in s.status && s.wake[0] in s.sem && s.wake[0] in s.alive && s.status[s.wake[0]] == Taken
    ensures s.sem[s.wake[0]] == 0
  {
    assert At(s, t).NotifySignal?;
    assert s.wake[0] in s.wake;
    assert WaiterOk(s, s.wake[0]);
    hide HistoryOk, ListOk;
  }

  lemma SignalKeeps(s: State, t: nat)
    requires Standing(s, t, Signal)
    ensures Inv(Apply(s, t, Signal))
  {
    hide LocksOk, EntriesOk, ListOk, WakeOk, WaitersOk, HistoryOk, Apply, Enabled;
    LocksKept(s, t, Signal);
    SignalEntries(s, t);
    SignalList(s, t);
    SignalWake(s, t);
    SignalWaiters(s, t);
    SignalHistory(s, t);
  }

  lemma SignalEntries(s: State, t: nat)
    requires Standing(s, t, Signal)
    ensures EntriesOk(Apply(s, t, Signal))
  {
    hide LocksOk, WakeOk, ListOk, WaitersOk, HistoryOk;
    SignalStands(s, t);
    StepMoves(s, t, Signal);
  }

  lemma SignalList(s: State, t: nat)
    requires Standing(s, t, Signal)
    ensures ListOk(Apply(s, t, Signal))
  {
    hide LocksOk, WakeOk, WaitersOk, HistoryOk, LinksOk;
    SignalStands(s, t);
  }

  lemma SignalWake(s: State, t: nat)
    requires Standing(s, t, Signal)
    ensures WakeOk(Apply(s, t, Signal))
  {
    hide LocksOk, WaitersOk, HistoryOk, ListOk, Chained;
    SignalStands(s, t);
    StepMoves(s, t, Signal);
    WakeTail(s.list.next, s.wake);
  }

  lemma WakeTail(next: map<nat, nat>, wake: seq<nat>)
    requires Distinct(wake) && wake != []
    ensures Distinct(wake[1..]) && (forall x :: x in wake[1..] <==> x in wake && x != wake[0])
    ensures Chained(next, wake) ==> Chained(next, wake[1..])
    ensures After(wake, 0) == Head(wake[1..])
  {
    if Chained(next, wake) {
      forall i | 0 <= i < |wake[1..]|
        ensures LinkedAt(next, wake[1..], i)
      {
        assert LinkedAt(next, wake, i + 1);
      }
    }
  }

  lemma SignalWaiters(s: State, t: nat)
    requires Standing(s, t, Signal)
    ensures WaitersOk(Apply(s, t, Signal))
  {
    hide LocksOk, WakeOk, HistoryOk, ListOk;
    SignalStands(s, t);
    StepMoves(s, t, Signal);
    var s' := Apply(s, t, Signal);
    forall u | u in s'.status && u in s'.sem
      ensures WaiterOk(s', u)
    {
      assert WaiterOk(s, u);
    }
  }

  lemma SignalHistory(s: State, t: nat)
    requires Standing(s, t, Signal)
    ensures HistoryOk(Apply(s, t, Signal))
  {
    hide LocksOk, WakeOk, WaitersOk, ListOk;
    SignalStands(s, t);
  }

  // ----- every run -----

  lemma StepKeeps(s: State, t: nat, step: Step)
    requires Inv(s) && Enabled(s, t, step)
    ensures Inv(Apply(s, t, step))
  {
    hide Inv, Enabled, Apply;
    match step
    case Add => AddKeeps(s, t);
    case Acquire => AcquireKeeps(s, t);
    case Check => CheckKeeps(s, t);
    case Return => ReturnKeeps(s, t);
    case Take => TakeKeeps(s, t);
    case Signal => SignalKeeps(s, t);
    case _ => MoveKeeps(s, t, step);
  }

  datatype Event = Event(thread: nat, step: Step)

  ghost predicate Run(states: seq<State>, events: seq<Event>) {
    && |states| == |events| + 1 && Initial(states[0])
    && forall i :: 0 <= i < |events| ==> Follows(states[i], events[i], states[i + 1])
  }

  ghost predicate Follows(s: State, e: Event, s': State) {
    Enabled(s, e.thread, e.step) && s' == Apply(s, e.thread, e.step)
  }

  lemma {:induction false} RunsKeep(states: seq<State>, events: seq<Event>, n: nat)
    requires Run(states, events) && n < |states|
    ensures Inv(states[n])
  {
    hide Inv, Enabled, Apply, Initial;
    if n == 0 {
      InitialOk(states[0]);
    } else {
      RunsKeep(states, events, n - 1);
      assert Follows(states[n - 1], events[n - 1], states[n]);
      StepKeeps(states[n - 1], events[n - 1].thread, events[n - 1].step);
    }
  }

  /**
   In every run a finished wait reports "notified" exactly when a notifier took its entry, and "timed out" otherwise.
   */
  lemma ReportsAreRight(states: seq<State>, events: seq<Event>, n: nat, k: nat)
    requires Run(states, events) && n < |states| && k in states[n].reports
    ensures states[n].reports[k] <==> k !in states[n].taken
  {
    RunsKeep(states, events, n);
    hide Run, LocksOk, EntriesOk, ListOk, WakeOk, WaitersOk;
  }

  /** Every entry that a notifier takes wakes one wait: it has reported "notified", or it is still inside and will. */
  lemma EveryNotificationArrives(states: seq<State>, events: seq<Event>, n: nat, k: nat)
    requires Run(states, events) && n < |states|
    ensures var s := states[n];
            k in s.taken <==> (k in s.reports && !s.reports[k]) || (exists t :: Delivering(s, t, k))
  {
    RunsKeep(states, events, n);
    hide Run, LocksOk, ListOk, WakeOk;
    var s := states[n];
    if k in s.taken && k !in s.reports {
      var t :| t in s.ticket && s.ticket[t] == k;
      assert WaiterOk(s, t);
      assert Delivering(s, t, k);
    }
  }

  /**
   Thread t is in the wait numbered k, a notifier has taken its entry, and it cannot report a timeout any
   more; once signalled it has a token or is past its semaphore.
   */
  ghost predicate Delivering(s: State, t: nat, k: nat) {
    && t in s.alive && t in s.ticket && s.ticket[t] == k && t in s.status
    && (s.status[t] == Taken || s.status[t] == Signalled)
    && !KnowsTimeout(At(s, t)) && t in s.sem
    && (s.status[t] == Signalled && BeforeSemaphore(At(s, t)) ==> s.sem[t] == 1)
  }

  /** A notifier follows the link of an entry, and releases its semaphore, only while the entry is alive. */
  lemma OnlyLiveEntriesAreTouched(states: seq<State>, events: seq<Event>, n: nat)
    requires Run(states, events) && n < |events| && (events[n].step.Signal? || events[n].step.NextToWake?)
    ensures var s, t := states[n], events[n].thread;
            && (At(s, t).NotifyWake? || At(s, t).NotifySignal?)
            && (At(s, t).head != 0 ==> At(s, t).head in s.alive && At(s, t).head in s.sem && s.sem[At(s, t).head] == 0)
  {
    RunsKeep(states, events, n);
    var s, t := states[n], events[n].thread;
    assert Follows(s, events[n], states[n + 1]);
    hide Run, Follows, Apply;
    NotifierTouches(s, t, events[n].step);
  }

  lemma NotifierTouches(s: State, t: nat, step: Step)
    requires Standing(s, t, step) && (step.Signal? || step.NextToWake?)
    ensures (At(s, t).NotifyWake? || At(s, t).NotifySignal?) && t == s.mutex
    ensures At(s, t).head != 0 ==> At(s, t).head in s.alive && At(s, t).head in s.sem && s.sem[At(s, t).head] == 0
  {
    hide ListOk, HistoryOk;
    assert At(s, t).NotifyWake? || At(s, t).NotifySignal?;
    var e := At(s, t).head;
    if e != 0 {
      assert e in s.wake;
      assert WaiterOk(s, e);
    }
  }
}
