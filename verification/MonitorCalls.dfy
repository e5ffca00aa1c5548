/** What the events of a run ask of the monitor, told by the events alone, and that the monitor does it. */
module MonitorCalls {
  import opened Chains
  import opened Monitor
  import opened MonitorRuns
  import opened WaitLists

  /** What the events say: the waits are numbered in the order in which they are added to the list. */
  datatype Told = Told(
    all: map<nat, bool>,             // by thread: does its last notification go to all?
    timed: map<nat, bool>,           // by thread: has its last wait a time limit?
    waiting: seq<nat>,               // the threads that wait, in the order of their waits
    number: map<nat, nat>,           // by thread: the number of its last wait
    issued: nat,
    limited: set<nat>,               // the numbers of the waits with a time limit
    notified: set<nat>,              // the numbers of the waits that notifications have picked
    reports: map<nat, bool>)         // by number: has the wait reported a timeout?

  function Yes(m: map<nat, bool>, t: nat): bool {
    t in m && m[t]
  }

  /** A notification picks everyone who waits, or whoever has waited longest. */
  function Picked(w: Told, t: nat): (es: seq<nat>)
    ensures |es| <= |w.waiting| && es == w.waiting[..|es|]
  {
    if Yes(w.all, t) then w.waiting else if w.waiting == [] then [] else [w.waiting[0]]
  }

  function Leaving(q: seq<nat>, t: nat): seq<nat> {
    if q == [] then [] else if q[0] == t then Leaving(q[1..], t) else [q[0]] + Leaving(q[1..], t)
  }

  ghost function Next(w: Told, e: Event): Told {
    var t := e.thread;
    match e.step
    case StartWait(timed) => w.(timed := w.timed[t := timed])
    case StartNotify(all) => w.(all := w.all[t := all])
    case Add =>
      w.(waiting := w.waiting + [t], number := w.number[t := w.issued], issued := w.issued + 1,
         limited := if Yes(w.timed, t) then w.limited + {w.issued} else w.limited)
    case Check => w.(waiting := Leaving(w.waiting, t))
    case Take =>
      var es := Picked(w, t);
      w.(waiting := w.waiting[|es|..], notified := w.notified + Tickets(w.number, es))
    case Return => if t in w.number then w.(reports := w.reports[w.number[t] := w.number[t] !in w.notified]) else w
    case _ => w
  }

  ghost function ToldBy(events: seq<Event>): Told {
    if events == [] then Told(map[], map[], [], map[], 0, {}, {}, map[])
    else Next(ToldBy(events[..|events| - 1]), events[|events| - 1])
  }

  // ----- the monitor does what it is told -----

  predicate InTimedPart(pc: Pc) {
    pc.TimedOut? || pc.TimeoutCheck? || pc.TimeoutDone? || (pc.Relock? && pc.timeout)
  }

  predicate Waiting(pc: Pc) {
    pc.WaitEnter? || pc.WaitAdd? || pc.WaitAdded? || pc.WaitUnlock? || pc.Sleeping?
  }

  /** A thread remembers what it was asked for. */
  ghost predicate Remembers(pc: Pc, w: Told, t: nat) {
    && (Notifying(pc) ==> pc.all == Yes(w.all, t))
    && (Waiting(pc) ==> pc.timed == Yes(w.timed, t))
    && (InTimedPart(pc) ==> Yes(w.timed, t))
  }

  ghost predicate EntryAs(s: State, w: Told, t: nat) {
    t in s.ticket ==>
      && t in w.number && w.number[t] == s.ticket[t]
      && (s.ticket[t] in w.limited <==> Yes(w.timed, t))
  }

  ghost predicate Agree(s: State, w: Told) {
    && s.queue == w.waiting && s.issued == w.issued && s.taken == w.notified && s.reports == w.reports
    && (forall t {:trigger EntryAs(s, w, t)} :: EntryAs(s, w, t))
    && (forall k :: k in w.limited ==> k < w.issued)
    && (forall k :: k in w.reports && w.reports[k] ==> k in w.limited)
  }

  ghost predicate Does(s: State, w: Told) {
    Agree(s, w) && forall t {:trigger At(s, t)} :: Remembers(At(s, t), w, t)
  }

  lemma OwnMemory(s: State, w: Told, t: nat, step: Step)
    requires Enabled(s, t, step) && Remembers(At(s, t), w, t)
    ensures Remembers(Goes(s, t, step), Next(w, Event(t, step)), t)
  {
  }

  lemma OthersRemember(s: State, w: Told, t: nat, step: Step, u: nat)
    requires Remembers(At(s, u), w, u) && u != t
    ensures Remembers(At(s, u), Next(w, Event(t, step)), u)
  {
  }

  lemma AllRemember(s: State, w: Told, t: nat, step: Step)
    requires Enabled(s, t, step) && Does(s, w)
    ensures var s', w' := Apply(s, t, step), Next(w, Event(t, step));
            forall u {:trigger At(s', u)} :: Remembers(At(s', u), w', u)
  {
    hide Apply, Goes, Enabled, Remembers, Next;
    var s', w' := Apply(s, t, step), Next(w, Event(t, step));
    StepMoves(s, t, step);
    forall u
      ensures Remembers(At(s', u), w', u)
    {
      assert Remembers(At(s, u), w, u);
      if u == t { OwnMemory(s, w, t, step); } else { OthersRemember(s, w, t, step, u); }
    }
  }

  lemma {:induction false} LeavingNone(q: seq<nat>, t: nat)
    requires t !in q
    ensures Leaving(q, t) == q
  {
    if q != [] { LeavingNone(q[1..], t); }
  }

  lemma {:induction false} LeavingOne(q: seq<nat>, i: nat)
    requires Distinct(q) && i < |q|
    ensures Leaving(q, q[i]) == q[..i] + q[i + 1..]
  {
    if i == 0 {
      LeavingNone(q[1..], q[0]);
    } else {
      LeavingOne(q[1..], i - 1);
      assert q[1..][..i - 1] == q[1..i] && q[1..][i..] == q[i + 1..];
    }
  }

  lemma CheckDoes(s: State, w: Told, t: nat)
    requires Standing(s, t, Check) && Does(s, w)
    ensures Agree(Apply(s, t, Check), Next(w, Event(t, Check)))
  {
    hide Inv, Unlinked, IndexOf, Remembers;
    CheckStands(s, t);
    QueueDistinct(s);
    var s', w' := Apply(s, t, Check), Next(w, Event(t, Check));
    if t in s.queue {
      LeavingOne(s.queue, IndexOf(s.queue, t));
    } else {
      LeavingNone(s.queue, t);
    }
    forall u
      ensures EntryAs(s', w', u)
    {
      assert EntryAs(s, w, u);
    }
  }

  lemma QueueDistinct(s: State)
    requires Inv(s)
    ensures Distinct(s.queue)
  {
    hide LocksOk, EntriesOk, WakeOk, WaitersOk, HistoryOk;
  }

  lemma TakeDoes(s: State, w: Told, t: nat)
    requires Standing(s, t, Take) && Does(s, w)
    ensures Agree(Apply(s, t, Take), Next(w, Event(t, Take)))
  {
    hide Inv, Apply, Tickets;
    assert Remembers(At(s, t), w, t);
    PickedTickets(s, w, Picked(w, t));
    Took(s, t);
    var s', w' := Apply(s, t, Take), Next(w, Event(t, Take));
    forall u
      ensures EntryAs(s', w', u)
    {
      assert EntryAs(s, w, u);
    }
  }

  lemma Took(s: State, t: nat)
    requires Enabled(s, t, Take)
    ensures var s', all := Apply(s, t, Take), At(s, t).all;
            && (all ==> s'.queue == [] && s'.taken == s.taken + Tickets(s.ticket, s.queue))
            && (!all && s.queue == [] ==> s'.queue == [] && s'.taken == s.taken)
            && (!all && s.queue != [] ==>
                  s'.queue == s.queue[1..] && s'.taken == s.taken + Tickets(s.ticket, [s.queue[0]]))
            && s'.ticket == s.ticket && s'.issued == s.issued && s'.reports == s.reports
  {
    hide Marked, TookAll, TookFirst, Tickets;
  }

  lemma PickedTickets(s: State, w: Told, es: seq<nat>)
    requires Inv(s) && Does(s, w) && forall x :: x in es ==> x in s.queue
    ensures Tickets(s.ticket, es) == Tickets(w.number, es)
  {
    hide LocksOk, WakeOk, WaitersOk, HistoryOk, LinksOk, Remembers;
    forall x | x in es
      ensures x in s.ticket && x in w.number && w.number[x] == s.ticket[x]
    {
      assert EntryAs(s, w, x);
    }
    hide Inv, Does;
  }

  lemma TicketIssued(s: State, t: nat)
    requires Inv(s) && t in s.ticket
    ensures s.ticket[t] < s.issued
  {
    hide LocksOk, EntriesOk, ListOk, WakeOk, WaitersOk;
  }

  lemma AddDoes(s: State, w: Told, t: nat)
    requires Standing(s, t, Add) && Does(s, w)
    ensures Agree(Apply(s, t, Add), Next(w, Event(t, Add)))
  {
    hide Inv, Added;
    AddStands(s, t);
    var s', w' := Apply(s, t, Add), Next(w, Event(t, Add));
    assert Remembers(At(s, t), w, t);
    forall u
      ensures EntryAs(s', w', u)
    {
      if u in s.ticket { TicketIssued(s, u); }
      assert EntryAs(s, w, u);
    }
  }

  lemma ReturnDoes(s: State, w: Told, t: nat)
    requires Standing(s, t, Return) && Does(s, w)
    ensures Agree(Apply(s, t, Return), Next(w, Event(t, Return)))
  {
    hide Inv, Enabled, Apply;
    var s', w' := Apply(s, t, Return), Next(w, Event(t, Return));
    Reported(s, t);
    assert EntryAs(s, w, t) && Remembers(At(s, t), w, t);
    forall u
      ensures EntryAs(s', w', u)
    {
      assert EntryAs(s, w, u);
    }
  }

  lemma Reported(s: State, t: nat)
    requires Standing(s, t, Return)
    ensures At(s, t).Relock? && t in s.ticket && (At(s, t).timeout <==> s.ticket[t] !in s.taken)
    ensures var s' := Apply(s, t, Return);
            && s'.reports == s.reports[s.ticket[t] := At(s, t).timeout] && s'.ticket == s.ticket - {t}
            && s'.queue == s.queue && s'.issued == s.issued && s'.taken == s.taken
  {
    hide LocksOk, EntriesOk, ListOk, WakeOk, WaitersOk;
    ReturnStands(s, t);
  }

  /** The steps that touch none of what the events tell about, besides what a thread remembers. */
  predicate Silent(step: Step) {
    !(step.Add? || step.Check? || step.Take? || step.Return?)
  }

  lemma SilentDoes(s: State, w: Told, t: nat, step: Step)
    requires Standing(s, t, step) && Does(s, w) && Silent(step)
    ensures Agree(Apply(s, t, step), Next(w, Event(t, step)))
  {
    hide Inv, Remembers;
    var s', w' := Apply(s, t, step), Next(w, Event(t, step));
    if step.StartWait? { NoEntryOutside(s, t); }
    forall u
      ensures EntryAs(s', w', u)
    {
      assert EntryAs(s, w, u);
    }
  }

  lemma NoEntryOutside(s: State, t: nat)
    requires Inv(s) && At(s, t).Critical?
    ensures t !in s.ticket
  {
    hide LocksOk, ListOk, WakeOk, WaitersOk, HistoryOk;
  }

  /** One step of the monitor does what its event tells. */
  lemma StepDoes(s: State, w: Told, t: nat, step: Step)
    requires Standing(s, t, step) && Does(s, w)
    ensures Does(Apply(s, t, step), Next(w, Event(t, step)))
  {
    hide Inv, Enabled, Apply, Next, Agree, Remembers, At;
    AllRemember(s, w, t, step);
    match step
    case Add => AddDoes(s, w, t);
    case Check => CheckDoes(s, w, t);
    case Take => TakeDoes(s, w, t);
    case Return => ReturnDoes(s, w, t);
    case _ => SilentDoes(s, w, t, step);
  }

  /** In every run the list, the waits picked by notifiers and the reports are what the events tell. */
  lemma {:induction false} RunsDo(states: seq<State>, events: seq<Event>, n: nat)
    requires Run(states, events) && n < |states|
    ensures Does(states[n], ToldBy(events[..n]))
  {
    hide Inv, Enabled, Apply, Next, Does;
    if n == 0 {
      NothingTold(states[0]);
    } else {
      RunsDo(states, events, n - 1);
      RunsKeep(states, events, n - 1);
      assert Follows(states[n - 1], events[n - 1], states[n]);
      assert events[..n][..n - 1] == events[..n - 1];
      StepDoes(states[n - 1], ToldBy(events[..n - 1]), events[n - 1].thread, events[n - 1].step);
    }
  }

  lemma NothingTold(s: State)
    requires Initial(s)
    ensures Does(s, ToldBy([]))
  {
  }

  // ----- what that means -----

  /** From the call of a notification to its look at the list the thread remembers whom to notify. */
  lemma {:induction false} AskedSince(states: seq<State>, events: seq<Event>, i: nat, m: nat)
    requires Run(states, events) && i < m < |states| && events[i].step.StartNotify?
    requires forall j :: i < j < m ==> events[j] != Event(events[i].thread, Take)
    ensures At(states[m], events[i].thread) in {NotifyEnter(events[i].step.all), NotifyTake(events[i].step.all)}
    decreases m
  {
    hide Act;
    assert Follows(states[m - 1], events[m - 1], states[m]);
    if i < m - 1 { AskedSince(states, events, i, m - 1); }
  }

  /**
   A notification of all takes everyone who waits when it looks at the list; one of a single thread takes whoever has
   waited longest, if anyone waits.
   */
  lemma NotifyTakes(states: seq<State>, events: seq<Event>, i: nat, m: nat)
    requires Run(states, events) && i < m < |events| && events[i].step.StartNotify?
    requires events[m] == Event(events[i].thread, Take)
    requires forall j :: i < j < m ==> events[j] != Event(events[i].thread, Take)
    ensures var s, s', all := states[m], states[m + 1], events[i].step.all;
            && (forall u :: u in s.queue ==> u in s.ticket)
            && (all ==> s'.queue == [] && s'.taken == s.taken + (set u | u in s.queue && u in s.ticket :: s.ticket[u]))
            && (!all && s.queue == [] ==> s'.queue == [] && s'.taken == s.taken)
            && (!all && s.queue != [] ==> s'.queue == s.queue[1..] && s'.taken == s.taken + {s.ticket[s.queue[0]]})
  {
    hide Inv, Apply, At;
    AskedSince(states, events, i, m);
    RunsKeep(states, events, m);
    assert Follows(states[m], events[m], states[m + 1]);
    Took(states[m], events[m].thread);
    QueuedHaveTickets(states[m]);
  }

  lemma QueuedHaveTickets(s: State)
    requires Inv(s)
    ensures forall u :: u in s.queue ==> u in s.ticket
  {
    hide LocksOk, WakeOk, WaitersOk, HistoryOk, LinksOk;
  }

  lemma {:induction false} TakenStays(states: seq<State>, events: seq<Event>, m: nat, n: nat)
    requires Run(states, events) && m <= n < |states|
    ensures states[m].taken <= states[n].taken
    decreases n
  {
    hide Marked, Tickets, TookAll, TookFirst;
    if m < n {
      TakenStays(states, events, m, n - 1);
      assert Follows(states[n - 1], events[n - 1], states[n]);
    }
  }

  /** When the notifier is done, everyone it took has a token, or is past its semaphore, or has reported. */
  lemma NotifyDone(states: seq<State>, events: seq<Event>, m: nat, r: nat, k: nat)
    requires Run(states, events) && m < r < |states| && events[m].step.Take?
    requires At(states[r], events[m].thread).Critical?
    requires k in states[m + 1].taken
    ensures var s := states[r];
            (k in s.reports && !s.reports[k]) || (exists t :: Delivering(s, t, k) && s.status[t] == Signalled)
  {
    hide Inv, Follows;
    TakenStays(states, events, m + 1, r);
    RunsKeep(states, events, r);
    EveryNotificationArrives(states, events, r, k);
    var s := states[r];
    if !(k in s.reports && !s.reports[k]) {
      var t :| Delivering(s, t, k);
      NobodyToWake(s, events[m].thread, t);
    }
  }

  lemma NobodyToWake(s: State, t: nat, u: nat)
    requires Inv(s) && At(s, t).Critical? && u in s.status
    ensures s.status[u] != Taken
  {
    hide EntriesOk, ListOk, WaitersOk, HistoryOk;
  }

  /** A wait can time out if and only if it was started with a time limit. */
  lemma TimesOutIfLimited(states: seq<State>, events: seq<Event>, n: nat, t: nat)
    requires Run(states, events) && n < |states| && t != 0
    ensures var s, w := states[n], ToldBy(events[..n]);
            && (At(s, t).Sleeping? ==> (Enabled(s, t, Expire) <==> Yes(w.timed, t)))
            && (forall k :: k in s.reports && s.reports[k] ==> k in w.limited)
  {
    hide Follows, ToldBy;
    RunsDo(states, events, n);
    assert Remembers(At(states[n], t), ToldBy(events[..n]), t);
  }

  /** The finished waits report a timeout exactly when no notification had picked them, told by the events alone. */
  lemma ReportsAsTold(states: seq<State>, events: seq<Event>, n: nat)
    requires Run(states, events) && n < |states|
    ensures var s, w := states[n], ToldBy(events[..n]);
            s.reports == w.reports && s.taken == w.notified && s.queue == w.waiting && s.issued == w.issued
    ensures forall k :: k in ToldBy(events[..n]).reports ==>
              (ToldBy(events[..n]).reports[k] <==> k !in ToldBy(events[..n]).notified)
  {
    hide Inv, Run, ToldBy;
    RunsDo(states, events, n);
    forall k | k in states[n].reports
      ensures states[n].reports[k] <==> k !in states[n].taken
    {
      ReportsAreRight(states, events, n, k);
    }
  }

  /** What a thread does next; inside its critical section it may also wait or notify. */
  function NextStep(s: State, t: nat): Step {
    match At(s, t)
    case Outside => Lock
    case Critical => Unlock
    case WaitEnter(_) => GrabForWait
    case WaitAdd(_) => Add
    case WaitAdded(_) => DropForWait
    case WaitUnlock(_) => UnlockForWait
    case Sleeping(timed) => if timed then Expire else Acquire
    case TimedOut => GrabForTimeout
    case TimeoutCheck => Check
    case TimeoutDone(_) => DropForTimeout
    case Relock(_) => Return
    case NotifyEnter(_) => GrabForNotify
    case NotifyTake(_) => Take
    case NotifyTaken(_, _) => DropForNotify
    case NotifyWake(_, _) => NextToWake
    case NotifySignal(_, _, _) => Signal
  }

  lemma SignalledHasToken(s: State, t: nat)
    requires Inv(s) && At(s, t).Sleeping? && t in s.status && s.status[t] == Signalled
    ensures t in s.sem && s.sem[t] == 1
  {
    hide LocksOk, ListOk, WakeOk, HistoryOk;
    assert WaiterOk(s, t);
  }

  /** Who holds a lock, who has been signalled, and who has timed out and finds the internal lock free, can go on. */
  lemma NobodyIsStuck(states: seq<State>, events: seq<Event>, n: nat, t: nat)
    requires Run(states, events) && n < |states| && t != 0
    requires var s, pc := states[n], At(states[n], t);
             || OwnsInternal(pc) || (OwnsMutex(pc) && s.internal == 0) || (pc.Outside? && s.mutex == 0)
             || (pc.Relock? && s.mutex == 0) || (pc.TimedOut? && s.internal == 0)
             || (pc.Sleeping? && (pc.timed || (t in s.status && s.status[t] == Signalled)))
    ensures Enabled(states[n], t, NextStep(states[n], t))
            || (At(states[n], t).Sleeping? && Enabled(states[n], t, Acquire))
  {
    hide Run, Inv;
    RunsKeep(states, events, n);
    var s := states[n];
    if At(s, t).Sleeping? && t in s.status && s.status[t] == Signalled { SignalledHasToken(s, t); }
  }
}
