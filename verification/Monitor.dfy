/**
 The CMSIS monitor as steps of many threads. Every step is what a thread does between two points where
 another thread may run. Waiters, waiters with a timeout and notifiers share the wait list, two locks and
 one semaphore per waiter. A thread's wait-list entry lives on its stack, so its address is used again by
 the thread's next wait.
 */
module Monitor {
  import opened WaitLists

  /** Where a thread is. A comment names the locks that it holds. */
  datatype Pc =
    | Outside
    | Critical                                   // mutex
    | WaitEnter(timed: bool)                     // mutex
    | WaitAdd(timed: bool)                       // mutex, internal
    | WaitAdded(timed: bool)                     // mutex, internal
    | WaitUnlock(timed: bool)                    // mutex
    | Sleeping(timed: bool)
    | TimedOut
    | TimeoutCheck                               // internal
    | TimeoutDone(removed: bool)                 // internal
    | Relock(timeout: bool)
    | NotifyEnter(all: bool)                     // mutex
    | NotifyTake(all: bool)                      // mutex, internal
    | NotifyTaken(all: bool, head: nat)          // mutex, internal
    | NotifyWake(all: bool, head: nat)           // mutex
    | NotifySignal(all: bool, head: nat, rest: nat) // mutex

  /** What has become of a wait: in the list; taken by a notifier; its semaphore released; taken out by itself. */
  datatype Status = Queued | Taken | Signalled | SelfRemoved

  datatype State = State(
    mutex: nat, internal: nat,       // owners, 0 if free
    list: Links,
    sem: map<nat, nat>,              // tokens
    alive: set<nat>,                 // entries between construction and destruction
    pc: map<nat, Pc>,
    // history
    queue: seq<nat>,                 // the entries in the list
    wake: seq<nat>,                  // entries taken by the notifier, not yet signalled
    status: map<nat, Status>,        // of live entries
    ticket: map<nat, nat>,           // the number of a live entry's wait
    issued: nat,
    taken: set<nat>,                 // waits whose entry a notifier took out
    reports: map<nat, bool>)         // finished waits: did they report a timeout?

  function At(s: State, t: nat): Pc {
    if t in s.pc then s.pc[t] else Outside
  }

  datatype Step =
    | Lock | Unlock
    | StartWait(timed: bool) | GrabForWait | Add | DropForWait | UnlockForWait
    | Acquire | Expire | GrabForTimeout | Check | DropForTimeout | Return
    | StartNotify(all: bool) | GrabForNotify | Take | DropForNotify | NextToWake | Signal

  predicate Enabled(s: State, t: nat, step: Step) {
    && t != 0
    && match step
       case Lock => At(s, t).Outside? && s.mutex == 0
       case Unlock => At(s, t).Critical?
       case StartWait(_) => At(s, t).Critical?
       case GrabForWait => At(s, t).WaitEnter? && s.internal == 0
       case Add => At(s, t).WaitAdd?
       case DropForWait => At(s, t).WaitAdded?
       case UnlockForWait => At(s, t).WaitUnlock?
       case Acquire => At(s, t).Sleeping? && t in s.sem && 0 < s.sem[t]
       case Expire => At(s, t).Sleeping? && At(s, t).timed
       case GrabForTimeout => At(s, t).TimedOut? && s.internal == 0
       case Check => At(s, t).TimeoutCheck?
       case DropForTimeout => At(s, t).TimeoutDone?
       case Return => At(s, t).Relock? && s.mutex == 0
       case StartNotify(_) => At(s, t).Critical?
       case GrabForNotify => At(s, t).NotifyEnter? && s.internal == 0
       case Take => At(s, t).NotifyTake?
       case DropForNotify => At(s, t).NotifyTaken?
       case NextToWake => At(s, t).NotifyWake?
       case Signal => At(s, t).NotifySignal?
  }

  /** A wait-list entry comes into being and is appended to the list. */
  function AddEntry(s: State, t: nat): State {
    s.(list := Added(s.list.(next := s.list.next[t := 0]), t), sem := s.sem[t := 0], alive := s.alive + {t},
       queue := s.queue + [t], status := s.status[t := Queued], ticket := s.ticket[t := s.issued],
           issued := s.issued + 1)
  }

  /** After a timeout the waiter takes its entry out if it is still there. */
  function RemoveOwn(s: State, t: nat): State {
    if t in s.queue && t in s.list.next then
      var i := IndexOf(s.queue, t);
      s.(list := Unlinked(s.list, if i == 0 then 0 else s.queue[i - 1], t), queue := s.queue[..i] + s.queue[i + 1..],
          status := s.status[t := SelfRemoved])
    else s
  }

  function IndexOf(queue: seq<nat>, t: nat): (i: nat)
    requires t in queue
    ensures i < |queue| && queue[i] == t
  {
    if queue[0] == t then 0 else IndexOf(queue[1..], t) + 1
  }

  /** A notifier takes the first entry, or all of them. */
  function TakeEntries(s: State, all: bool): State {
    if all then
      s.(list := TookAll(s.list), wake := s.queue, queue := [],
         status := Marked(s.status, s.queue), taken := s.taken + Tickets(s.ticket, s.queue))
    else if s.queue == [] then s
    else
      s.(list := TookFirst(s.list), wake := [s.queue[0]], queue := s.queue[1..],
         status := Marked(s.status, [s.queue[0]]), taken := s.taken + Tickets(s.ticket, [s.queue[0]]))
  }

  function Marked(status: map<nat, Status>, es: seq<nat>): (m: map<nat, Status>)
    ensures forall x :: x in m <==> x in status || x in es
    ensures forall x :: x in m ==> m[x] == if x in es then Taken else status[x]
  {
    if es == [] then status else Marked(status, es[1..])[es[0] := Taken]
  }

  function Tickets(ticket: map<nat, nat>, es: seq<nat>): (r: set<nat>)
    ensures forall k :: k in r <==> exists i :: 0 <= i < |es| && es[i] in ticket && ticket[es[i]] == k
  {
    if es == [] then {} else (if es[0] in ticket then {ticket[es[0]]} else {}) + Tickets(ticket, es[1..])
  }

  /** The waiter has its mutex back: it destroys its entry and reports. */
  function Finish(s: State, t: nat, timeout: bool): State {
    s.(alive := s.alive - {t}, sem := s.sem - {t}, status := s.status - {t}, ticket := s.ticket - {t},
       reports := if t in s.ticket then s.reports[s.ticket[t] := timeout] else s.reports)
  }

  function Release(s: State, e: nat): State {
    s.(sem := if e in s.sem then s.sem[e := s.sem[e] + 1] else s.sem, status := s.status[e := Signalled],
       wake := if s.wake == [] then [] else s.wake[1..])
  }

  /** The thread's next place. */
  function Goes(s: State, t: nat, step: Step): Pc
    requires Enabled(s, t, step)
  {
    match step
    case Lock => Critical
    case Unlock => Outside
    case StartWait(timed) => WaitEnter(timed)
    case GrabForWait => WaitAdd(At(s, t).timed)
    case Add => WaitAdded(At(s, t).timed)
    case DropForWait => WaitUnlock(At(s, t).timed)
    case UnlockForWait => Sleeping(At(s, t).timed)
    case Acquire => Relock(false)
    case Expire => TimedOut
    case GrabForTimeout => TimeoutCheck
    case Check => TimeoutDone(t in s.queue)
    case DropForTimeout => Relock(At(s, t).removed)
    case Return => Critical
    case StartNotify(all) => NotifyEnter(all)
    case GrabForNotify => NotifyTake(At(s, t).all)
    case Take => NotifyTaken(At(s, t).all, s.list.first)
    case DropForNotify => NotifyWake(At(s, t).all, At(s, t).head)
    case NextToWake =>
      var e := At(s, t).head;
      if e == 0 then Critical
      else NotifySignal(At(s, t).all, e, if At(s, t).all && e in s.list.next then s.list.next[e] else 0)
    case Signal => NotifyWake(At(s, t).all, At(s, t).rest)
  }

  function MutexAfter(s: State, t: nat, step: Step): nat {
    if step.Lock? || step.Return? then t else if step.Unlock? || step.UnlockForWait? then 0 else s.mutex
  }

  function InternalAfter(s: State, t: nat, step: Step): nat {
    if step.GrabForWait? || step.GrabForTimeout? || step.GrabForNotify? then t
    else if step.DropForWait? || step.DropForTimeout? || step.DropForNotify? then 0
    else s.internal
  }

  /** What the step does besides moving its thread and changing locks. */
  function Act(s: State, t: nat, step: Step): State
    requires Enabled(s, t, step)
  {
    match step
    case Add => AddEntry(s, t)
    case Acquire => s.(sem := s.sem[t := s.sem[t] - 1])
    case Check => RemoveOwn(s, t)
    case Return => Finish(s, t, At(s, t).timeout)
    case Take => TakeEntries(s, At(s, t).all)
    case Signal => Release(s, At(s, t).head)
    case _ => s
  }

  function Apply(s: State, t: nat, step: Step): State
    requires Enabled(s, t, step)
  {
    Act(s, t, step).(pc := s.pc[t := Goes(s, t, step)], mutex := MutexAfter(s, t, step),
        internal := InternalAfter(s, t, step))
  }
}
