/** What holds in every run of the mailbox. */
module MailboxRuns {
  import opened Chains
  import opened Mailbox

  // ----- changes elsewhere -----

  lemma {:induction false} ContentsFrame(c: map<nat, nat>, c': map<nat, nat>, q: seq<nat>)
    requires forall x :: x in q ==> x in c && x in c' && c'[x] == c[x]
    ensures Contents(c', q) == Contents(c, q)
  {
    if q != [] { ContentsFrame(c, c', q[1..]); }
  }

  /** A change of links and contents that leaves the four sequences alone. */
  lemma FramePending(s: State, s': State)
    requires PlacesOk(s) && SameQueues(s, s')
    requires forall x :: x in s.place && !s.place[x].With? && s.place[x] != Dying ==>
              x in s'.content && s'.content[x] == s.content[x]
    ensures Pending(s') == Pending(s)
  {
    ContentsFrame(s.content, s'.content, s.stack);
    ContentsFrame(s.content, s'.content, s.queue);
    ContentsFrame(s.content, s'.content, s.previous);
    ContentsFrame(s.content, s'.content, s.available);
  }

  ghost predicate SameQueues(s: State, s': State) {
    s'.stack == s.stack && s'.queue == s.queue && s'.previous == s.previous && s'.available == s.available
  }

  lemma FrameChains(s: State, next': map<nat, nat>)
    requires PlacesOk(s) && ChainsOk(s)
    requires forall x :: x in s.place && !s.place[x].With? && s.place[x] != Dying && x in s.next ==>
              x in next' && next'[x] == s.next[x]
    ensures Chained(next', s.stack) && Chained(next', s.queue) && Chained(next', s.previous)
    ensures Chained(next', s.available)
  {
    ChainFrame(s.next, next', s.stack);
    ChainFrame(s.next, next', s.queue);
    ChainFrame(s.next, next', s.previous);
    ChainFrame(s.next, next', s.available);
  }

  // ----- producers -----

  lemma NewKeeps(s: State, p: nat, a: nat, m: nat)
    requires Inv(s) && Enabled(s, New(p, a, m))
    ensures Inv(Apply(s, New(p, a, m)))
  {
    hide Chained, Pending;
    var s' := Apply(s, New(p, a, m));
    assert ChainsOk(s') by { FrameChains(s, s'.next); }
    assert Fifo(s') by { FramePending(s, s'); }
    hide ChainsOk, Fifo;
    NewProducers(s, p, a, m);
    hide ProducersOk;
    assert PlacesOk(s');
  }

  lemma NewProducers(s: State, p: nat, a: nat, m: nat)
    requires PlacesOk(s) && ProducersOk(s) && Enabled(s, New(p, a, m))
    ensures ProducersOk(Apply(s, New(p, a, m)))
  {
    hide Holds;
    var s' := Apply(s, New(p, a, m));
    assert forall q {:trigger At(s', q)} :: At(s', q) == if q == p then Holding(a) else At(s, q);
  }

  lemma ProducerKeeps(s: State, step: Step)
    requires Inv(s) && Enabled(s, step) && (step.Load? || step.PushFails?)
    ensures Inv(Apply(s, step))
  {
    hide Chained, Pending, Holds;
    var s' := Apply(s, step);
    assert Fifo(s') by { FramePending(s, s'); }
    hide Fifo;
    assert forall q {:trigger At(s', q)} :: At(s', q) == if q == step.p then Loaded(At(s, q).entry, s.last)
        else At(s, q);
  }

  lemma SetNextKeeps(s: State, p: nat)
    requires Inv(s) && Enabled(s, SetNext(p))
    ensures Inv(Apply(s, SetNext(p)))
  {
    hide Chained, Pending, Holds;
    var s' := Apply(s, SetNext(p));
    assert At(s, p).Loaded?;
    assert ChainsOk(s') by { FrameChains(s, s'.next); }
    assert Fifo(s') by { FramePending(s, s'); }
    hide Fifo, ChainsOk;
    assert forall q {:trigger At(s', q)} :: At(s', q) == if q == p then Linked(At(s, q).entry, At(s, q).seen)
        else At(s, q);
  }

  lemma PushKeeps(s: State, p: nat)
    requires Inv(s) && Enabled(s, PushOk(p))
    ensures Inv(Apply(s, PushOk(p)))
  {
    hide ChainsOk, PlacesOk, ProducersOk, Fifo, Apply, Enabled;
    PushChains(s, p);
    PushPlaces(s, p);
    PushProducers(s, p);
    PushFifo(s, p);
  }

  lemma PushChains(s: State, p: nat)
    requires Inv(s) && Enabled(s, PushOk(p))
    ensures ChainsOk(Apply(s, PushOk(p)))
  {
    hide Fifo, Chained;
    assert At(s, p).Linked?;
    ChainPush(s.next, s.stack, At(s, p).entry);
  }

  lemma PushPlaces(s: State, p: nat)
    requires Inv(s) && Enabled(s, PushOk(p))
    ensures PlacesOk(Apply(s, PushOk(p)))
  {
    hide Fifo, ChainsOk;
    assert At(s, p).Linked?;
  }

  lemma PushProducers(s: State, p: nat)
    requires Inv(s) && Enabled(s, PushOk(p))
    ensures ProducersOk(Apply(s, PushOk(p)))
  {
    hide Fifo, ChainsOk, Holds;
    var s' := Apply(s, PushOk(p));
    assert At(s, p).Linked?;
    assert forall q {:trigger At(s', q)} :: At(s', q) == if q == p then Idle else At(s, q);
  }

  lemma PushFifo(s: State, p: nat)
    requires Inv(s) && Enabled(s, PushOk(p))
    ensures Fifo(Apply(s, PushOk(p)))
  {
    hide ChainsOk, PlacesOk, ProducersOk;
    var e := At(s, p).entry;
    assert ([e] + s.stack)[1..] == s.stack;
    assert Contents(s.content, [e] + s.stack) == [s.content[e]] + Contents(s.content, s.stack);
    PushedLast(s.content[e], Contents(s.content, s.stack));
  }

  lemma PushedLast(x: nat, q: seq<nat>)
    ensures Reverse([x] + q) == Reverse(q) + [x]
  {
    assert ([x] + q)[1..] == q;
  }

  // ----- the consumer -----

  lemma ConsumerKeeps(s: State, step: Step)
    requires Inv(s) && Enabled(s, step) && (step.StartTake? || step.TakeFails? || step.ReadNext?)
    ensures Inv(Apply(s, step))
  {
    hide Pending, Holds;
    var s' := Apply(s, step);
    assert Fifo(s') by { FramePending(s, s'); }
    hide Fifo;
    if step.ReadNext? { ChainPop(s.next, s.queue); }
    hide Chained;
    assert forall q {:trigger At(s', q)} :: At(s', q) == At(s, q);
  }

  lemma SameProducers(s: State, s': State)
    requires ProducersOk(s) && s'.producers == s.producers
    requires forall x :: x in s.place && s.place[x].With? ==>
              x in s'.place && s'.place[x] == s.place[x] && (x in s.next ==> x in s'.next && s'.next[x] == s.next[x])
    requires forall x :: x in s'.place && s'.place[x].With? ==> x in s.place && s.place[x] == s'.place[x]
    ensures ProducersOk(s')
  {
    assert forall q {:trigger At(s', q)} :: At(s', q) == At(s, q);
  }

  lemma TakeKeeps(s: State)
    requires Inv(s) && Enabled(s, TakeOk)
    ensures Inv(Apply(s, TakeOk))
  {
    hide Chained, ProducersOk, Contents, Reverse;
    var s' := Apply(s, TakeOk);
    assert Fifo(s') by { NoContents(s.content); }
    hide Fifo;
    SameProducers(s, s');
    EmptyChain(s.next);
  }

  lemma NoContents(c: map<nat, nat>)
    ensures Contents(c, []) == [] && Reverse([]) == []
  {
  }

  lemma RelinkKeeps(s: State)
    requires Inv(s) && Enabled(s, Relink)
    ensures Inv(Apply(s, Relink))
  {
    hide ChainsOk, PlacesOk, ProducersOk, Fifo, Apply, Enabled;
    RelinkChains(s);
    RelinkPlaces(s);
    RelinkFifo(s);
  }

  lemma RelinkChains(s: State)
    requires Inv(s) && Enabled(s, Relink)
    ensures ChainsOk(Apply(s, Relink))
  {
    hide Fifo, ProducersOk;
    var s', q := Apply(s, Relink), s.consumer.queue;
    ChainPop(s.next, s.queue);
    ChainFrame(s.next, s'.next, s.queue[1..]);
    ChainFrame(s.next, s'.next, s.previous);
    ChainFrame(s.next, s'.next, s.stack);
    ChainPush(s'.next, s.previous, q);
    EmptyChain(s'.next);
    hide Chained, Holds;
  }

  lemma RelinkPlaces(s: State)
    requires Inv(s) && Enabled(s, Relink)
    ensures PlacesOk(Apply(s, Relink)) && ProducersOk(Apply(s, Relink))
  {
    hide Fifo, ProducersOk;
    var s' := Apply(s, Relink);
    ChainPop(s.next, s.queue);
    hide Chained;
    SameProducers(s, s');
  }

  lemma RelinkFifo(s: State)
    requires Inv(s) && Enabled(s, Relink)
    ensures Fifo(Apply(s, Relink))
  {
    hide ProducersOk, PlacesOk, Chained, Contents, Reverse;
    var c, q, rest := s.content, s.consumer.queue, s.queue[1..];
    assert s.queue == [q] + rest;
    MovedOver(c, q, rest, s.previous);
    Regroup(Contents(c, s.available), Reverse(Contents(c, s.queue)), Contents(c, s.previous),
        Reverse(Contents(c, s.stack)),
            Reverse(Contents(c, rest)), Contents(c, [q] + s.previous));
  }

  /** Moving a message from one half of the reversal to the other does not change its position. */
  lemma MovedOver(c: map<nat, nat>, q: nat, rest: seq<nat>, previous: seq<nat>)
    ensures Reverse(Contents(c, [q] + rest)) + Contents(c, previous) == Reverse(Contents(c, rest))
              + Contents(c, [q] + previous)
  {
    hide Contents, Reverse;
    var x := if q in c then c[q] else 0;
    ContentsCons(c, q, rest);
    ContentsCons(c, q, previous);
    PushedLast(x, Contents(c, rest));
    assert Reverse(Contents(c, rest)) + [x] + Contents(c, previous) == Reverse(Contents(c, rest))
        + ([x] + Contents(c, previous));
  }

  lemma ContentsCons(c: map<nat, nat>, q: nat, rest: seq<nat>)
    ensures Contents(c, [q] + rest) == [if q in c then c[q] else 0] + Contents(c, rest)
  {
    assert ([q] + rest)[1..] == rest;
  }

  lemma Regroup(a: seq<nat>, x: seq<nat>, y: seq<nat>, z: seq<nat>, x': seq<nat>, y': seq<nat>)
    requires x + y == x' + y'
    ensures a + x + y + z == a + x' + y' + z
  {
    assert a + x + y + z == a + (x + y) + z;
    assert a + x' + y' + z == a + (x' + y') + z;
  }

  lemma ReversedKeeps(s: State)
    requires Inv(s) && Enabled(s, Reversed)
    ensures Inv(Apply(s, Reversed))
  {
    hide Chained, ProducersOk, Fifo;
    EmptyHead(s.next, s.queue);
    ReversedFifo(s);
    SameProducers(s, Apply(s, Reversed));
    EmptyChain(s.next);
  }

  lemma ReversedFifo(s: State)
    requires Inv(s) && Enabled(s, Reversed)
    ensures Fifo(Apply(s, Reversed))
  {
    hide Chained, ProducersOk, PlacesOk, Contents, Reverse;
    NoContents(s.content);
    assert s.queue == [] by { EmptyHead(s.next, s.queue); }
  }

  lemma AdvanceKeeps(s: State)
    requires Inv(s) && Enabled(s, Advance)
    ensures Inv(Apply(s, Advance))
  {
    hide ProducersOk, Fifo;
    var s' := Apply(s, Advance);
    AdvanceFifo(s);
    ChainPop(s.next, s.available);
    hide Chained;
    SameProducers(s, s');
  }

  lemma AdvanceFifo(s: State)
    requires Inv(s) && Enabled(s, Advance)
    ensures Fifo(Apply(s, Advance))
  {
    hide ProducersOk, PlacesOk, Chained, Contents, Reverse;
    var c, rest := s.content, s.available[1..];
    assert s.available == [s.current] + rest;
    ContentsCons(c, s.current, rest);
    FirstDelivered(s.delivered, c[s.current], Contents(c, rest), Reverse(Contents(c, s.queue)), Contents(c, s.previous),
                   Reverse(Contents(c, s.stack)));
  }

  lemma FirstDelivered(d: seq<nat>, x: nat, a: seq<nat>, q: seq<nat>, p: seq<nat>, st: seq<nat>)
    ensures d + ([x] + a + q + p + st) == (d + [x]) + (a + q + p + st)
  {
  }

  lemma DeleteKeeps(s: State)
    requires Inv(s) && Enabled(s, Delete)
    ensures Inv(Apply(s, Delete))
  {
    hide ProducersOk, Chained, Pending;
    var s' := Apply(s, Delete);
    assert Fifo(s') by { FramePending(s, s'); }
    hide Fifo;
    SameProducers(s, s');
  }

  // ----- the reversal in one go -----

  /** The next pointers of messages that no other thread can reach. */
  class Messages {
    var next: map<nat, nat>

    /** Reverse a list in place. */
    method ReverseList(head: nat, ghost q: seq<nat>) returns (previous: nat)
      requires Chained(next, q) && head == Head(q)
      modifies this
      ensures Chained(next, Reverse(q)) && previous == Head(Reverse(q))
      ensures forall x :: x in old(next) && x !in q ==> x in next && next[x] == old(next)[x]
    {
      var queue := head;
      previous := 0;
      ghost var todo, done := q, [];
      while queue != 0
        invariant Chained(next, todo) && Chained(next, done) && queue == Head(todo) && previous == Head(done)
        invariant Reverse(todo) + done == Reverse(q)
        invariant forall x :: x in todo ==> x in q && x !in done
        invariant forall x :: x in done ==> x in q
        invariant forall x :: x in old(next) && x !in q ==> x in next && next[x] == old(next)[x]
        decreases |todo|
      {
        ChainPop(next, todo);
        ghost var before := next;
        var rest := next[queue];
        next := next[queue := previous];
        ChainFrame(before, next, todo[1..]);
        ChainFrame(before, next, done);
        ChainPush(next, done, queue);
        assert Reverse(todo) + done == Reverse(todo[1..]) + ([queue] + done);
        previous, done := queue, [queue] + done;
        queue, todo := rest, todo[1..];
      }
      EmptyHead(next, todo);
      assert Reverse(todo) + done == done;
    }
  }

  // ----- every run -----

  lemma StepKeeps(s: State, step: Step)
    requires Inv(s) && Enabled(s, step)
    ensures Inv(Apply(s, step))
  {
    hide Inv, Enabled, Apply;
    match step
    case New(p, a, m) => NewKeeps(s, p, a, m);
    case Load(_) => ProducerKeeps(s, step);
    case PushFails(_) => ProducerKeeps(s, step);
    case SetNext(p) => SetNextKeeps(s, p);
    case PushOk(p) => PushKeeps(s, p);
    case StartTake => ConsumerKeeps(s, step);
    case TakeFails => ConsumerKeeps(s, step);
    case ReadNext => ConsumerKeeps(s, step);
    case TakeOk => TakeKeeps(s);
    case Relink => RelinkKeeps(s);
    case Reversed => ReversedKeeps(s);
    case Advance => AdvanceKeeps(s);
    case Delete => DeleteKeeps(s);
  }

  ghost predicate Run(states: seq<State>, steps: seq<Step>) {
    && |states| == |steps| + 1 && Initial(states[0])
    && forall i :: 0 <= i < |steps| ==> Follows(states[i], steps[i], states[i + 1])
  }

  ghost predicate Follows(s: State, step: Step, s': State) {
    Enabled(s, step) && s' == Apply(s, step)
  }

  lemma {:induction false} RunsKeep(states: seq<State>, steps: seq<Step>, n: nat)
    requires Run(states, steps) && n < |states|
    ensures Inv(states[n])
  {
    hide Inv, Enabled, Apply, Initial;
    if n == 0 {
      InitialOk(states[0]);
    } else {
      RunsKeep(states, steps, n - 1);
      assert Follows(states[n - 1], steps[n - 1], states[n]);
      StepKeeps(states[n - 1], steps[n - 1]);
    }
  }

  /**
   In every run messages are delivered in the order of their successful pushes, each at most once, and none is lost.
   */
  lemma DeliveryIsFifo(states: seq<State>, steps: seq<Step>, n: nat)
    requires Run(states, steps) && n < |states|
    ensures states[n].delivered <= states[n].pushed
    ensures states[n].pushed == states[n].delivered + Pending(states[n])
    ensures states[n].consumer.Ready? && states[n].last == 0 && states[n].current == 0 ==>
              states[n].delivered == states[n].pushed
  {
    RunsKeep(states, steps, n);
    hide Run;
  }

  // ----- what the steps alone say -----

  /** The messages that producers have made and not yet pushed. */
  ghost function Held(steps: seq<Step>): map<nat, nat> {
    if steps == [] then map[] else HeldAfter(Held(steps[..|steps| - 1]), steps[|steps| - 1])
  }

  ghost function HeldAfter(held: map<nat, nat>, step: Step): map<nat, nat> {
    match step
    case New(p, _, m) => held[p := m]
    case PushOk(p) => held - {p}
    case _ => held
  }

  /** The messages of the pushes that succeeded, in order. */
  ghost function Sent(steps: seq<Step>): seq<nat> {
    if steps == [] then []
    else
      var before := steps[..|steps| - 1];
      match steps[|steps| - 1]
      case PushOk(p) => Sent(before) + (if p in Held(before) then [Held(before)[p]] else [])
      case _ => Sent(before)
  }

  ghost function Advances(steps: seq<Step>): nat {
    if steps == [] then 0
    else Advances(steps[..|steps| - 1]) + if steps[|steps| - 1].Advance? then 1 else 0
  }

  /** Producer p has a message in hand exactly when the steps say so, and it is that one. */
  ghost predicate HoldsAs(s: State, held: map<nat, nat>, p: nat) {
    && (p in held <==> !At(s, p).Idle?)
    && (p in held ==> At(s, p).entry in s.content && s.content[At(s, p).entry] == held[p])
  }

  ghost predicate AllHoldAs(s: State, held: map<nat, nat>) {
    forall p :: HoldsAs(s, held, p)
  }

  lemma HoldsAsBefore(s: State, held: map<nat, nat>, step: Step, p: nat)
    requires Inv(s) && Enabled(s, step) && HoldsAs(s, held, p)
    requires match step case New(q, _, _) => q != p case PushOk(q) => q != p case _ => true
    ensures HoldsAs(Apply(s, step), held, p)
  {
    hide ChainsOk, Fifo, MoveAll;
  }

  lemma HoldsAsMade(s: State, held: map<nat, nat>, p: nat, a: nat, m: nat)
    requires Inv(s) && Enabled(s, New(p, a, m)) && AllHoldAs(s, held)
    ensures AllHoldAs(Apply(s, New(p, a, m)), held[p := m])
  {
    hide Inv, Enabled, Apply;
    var s', held' := Apply(s, New(p, a, m)), held[p := m];
    forall q
      ensures HoldsAs(s', held', q)
    {
      if q == p { MadeHeld(s, p, a, m); } else { HoldsAsBefore(s, held, New(p, a, m), q); }
    }
  }

  lemma MadeHeld(s: State, p: nat, a: nat, m: nat)
    requires Enabled(s, New(p, a, m))
    ensures var s' := Apply(s, New(p, a, m)); At(s', p) == Holding(a) && a in s'.content && s'.content[a] == m
  {
  }

  lemma HoldsAsPushed(s: State, held: map<nat, nat>, p: nat)
    requires Inv(s) && Enabled(s, PushOk(p)) && AllHoldAs(s, held)
    ensures AllHoldAs(Apply(s, PushOk(p)), held - {p})
    ensures p in held && Apply(s, PushOk(p)).pushed == s.pushed + [held[p]]
  {
    assert HoldsAs(s, held, p);
    assert At(Apply(s, PushOk(p)), p).Idle?;
    assert p in held && Apply(s, PushOk(p)).pushed == s.pushed + [held[p]];
    hide Inv, Enabled, Apply;
    var s', held' := Apply(s, PushOk(p)), held - {p};
    forall q
      ensures HoldsAs(s', held', q)
    {
      if q != p { HoldsAsBefore(s, held, PushOk(p), q); }
    }
  }

  lemma AllHoldAsBefore(s: State, held: map<nat, nat>, step: Step)
    requires Inv(s) && Enabled(s, step) && AllHoldAs(s, held) && !step.New? && !step.PushOk?
    ensures AllHoldAs(Apply(s, step), held)
  {
    hide Inv, Enabled, Apply;
    forall p
      ensures HoldsAs(Apply(s, step), held, p)
    {
      HoldsAsBefore(s, held, step, p);
    }
  }

  lemma StepCounts(s: State, step: Step)
    requires Inv(s) && Enabled(s, step)
    ensures !step.PushOk? ==> Apply(s, step).pushed == s.pushed
    ensures |Apply(s, step).delivered| == |s.delivered| + if step.Advance? then 1 else 0
  {
    hide Inv, Enabled, MoveAll;
  }

  lemma ToldOneMore(before: seq<Step>, step: Step)
    ensures Held(before + [step]) == HeldAfter(Held(before), step)
    ensures Sent(before + [step]) ==
            Sent(before) + (if step.PushOk? && step.p in Held(before) then [Held(before)[step.p]] else [])
    ensures Advances(before + [step]) == Advances(before) + if step.Advance? then 1 else 0
  {
    var steps := before + [step];
    assert steps[..|steps| - 1] == before && steps[|steps| - 1] == step;
  }

  lemma StepAsTold(s: State, before: seq<Step>, step: Step)
    requires Inv(s) && Enabled(s, step) && AllHoldAs(s, Held(before))
    requires s.pushed == Sent(before) && |s.delivered| == Advances(before)
    ensures var s', steps := Apply(s, step), before + [step];
            AllHoldAs(s', Held(steps)) && s'.pushed == Sent(steps) && |s'.delivered| == Advances(steps)
  {
    hide Inv, AllHoldAs, Enabled, Apply, Held, Sent, Advances;
    ToldOneMore(before, step);
    StepCounts(s, step);
    match step
    case New(p, a, m) => HoldsAsMade(s, Held(before), p, a, m);
    case PushOk(p) => HoldsAsPushed(s, Held(before), p);
    case _ => AllHoldAsBefore(s, Held(before), step);
  }

  lemma {:induction false} RunsAsTold(states: seq<State>, steps: seq<Step>, n: nat)
    requires Run(states, steps) && n < |states|
    ensures AllHoldAs(states[n], Held(steps[..n]))
    ensures states[n].pushed == Sent(steps[..n]) && |states[n].delivered| == Advances(steps[..n])
  {
    hide Inv, Enabled, Apply, AllHoldAs;
    if n == 0 {
      NothingHeld(states[0]);
    } else {
      RunsAsTold(states, steps, n - 1);
      RunsKeep(states, steps, n - 1);
      assert Follows(states[n - 1], steps[n - 1], states[n]);
      assert steps[..n] == steps[..n - 1] + [steps[n - 1]];
      StepAsTold(states[n - 1], steps[..n - 1], steps[n - 1]);
    }
  }

  lemma NothingHeld(s: State)
    requires Initial(s)
    ensures AllHoldAs(s, map[])
  {
  }

  /**
   The messages that have been delivered are those of the first successful pushes, one for each time the consumer has
   moved on. Both sides are told by the steps alone.
   */
  lemma DeliveredAsPushed(states: seq<State>, steps: seq<Step>, n: nat)
    requires Run(states, steps) && n < |states|
    ensures Advances(steps[..n]) <= |Sent(steps[..n])|
    ensures states[n].delivered == Sent(steps[..n])[..Advances(steps[..n])]
    ensures Pending(states[n]) == Sent(steps[..n])[Advances(steps[..n])..]
  {
    hide Run, Pending, AllHoldAs, Held, Sent, Advances;
    RunsAsTold(states, steps, n);
    DeliveryIsFifo(states, steps, n);
  }

  /** Between any two of its steps a producer can go on, and so can the consumer, whatever the others do. */
  lemma NobodyIsStuck(states: seq<State>, steps: seq<Step>, n: nat, p: nat)
    requires Run(states, steps) && n < |states|
    ensures var s := states[n];
            && (At(s, p).Idle? ==> forall a, m :: a != 0 && a !in s.content ==> Enabled(s, New(p, a, m)))
            && (At(s, p).Holding? ==> Enabled(s, Load(p)))
            && (At(s, p).Loaded? ==> Enabled(s, SetNext(p)))
            && (At(s, p).Linked? ==> Enabled(s, PushFails(p)) && (Enabled(s, PushOk(p)) <==> s.last == At(s, p).seen))
            && (s.consumer.Ready? ==> Enabled(s, if s.current == 0 then StartTake else Advance))
            && (s.consumer.Taking? ==> Enabled(s, TakeFails) && (Enabled(s, TakeOk) <==> s.last == s.consumer.seen))
            && (s.consumer.Reversing? ==> Enabled(s, if s.consumer.queue == 0 then Reversed else ReadNext))
            && (s.consumer.Relinking? ==> Enabled(s, Relink)) && (s.consumer.Deleting? ==> Enabled(s, Delete))
  {
    OnlyLiveMessagesAreTouched(states, steps, n);
  }

  // ----- a compare-and-swap is lost only to another one -----

  /** Producer p has seen the present last message. */
  ghost predicate UpToDate(s: State, p: nat) {
    (At(s, p).Loaded? || At(s, p).Linked?) && At(s, p).seen == s.last
  }

  lemma StaysUpToDate(s: State, step: Step, p: nat)
    requires Enabled(s, step) && UpToDate(s, p) && !step.PushOk? && !step.TakeOk?
    ensures UpToDate(Apply(s, step), p)
  {
  }

  /** A producer that has read the last message succeeds unless, since then, a push or a take by another one has. */
  lemma {:induction false} PushIsLostToAnother(states: seq<State>, steps: seq<Step>, i: nat, n: nat, p: nat)
    requires Run(states, steps) && i < n < |states| && steps[i] in {Load(p), PushFails(p)}
    requires forall j :: i < j < n ==> !steps[j].PushOk? && !steps[j].TakeOk?
    ensures UpToDate(states[n], p)
    ensures At(states[n], p).Linked? ==> Enabled(states[n], PushOk(p))
  {
    hide Inv, Enabled, Apply;
    assert Follows(states[n - 1], steps[n - 1], states[n]);
    if n == i + 1 {
      NowUpToDate(states[i], steps[i], p);
    } else {
      PushIsLostToAnother(states, steps, i, n - 1, p);
      StaysUpToDate(states[n - 1], steps[n - 1], p);
    }
    if At(states[n], p).Linked? { NobodyIsStuck(states, steps, n, p); }
  }

  lemma NowUpToDate(s: State, step: Step, p: nat)
    requires Enabled(s, step) && step in {Load(p), PushFails(p)}
    ensures UpToDate(Apply(s, step), p)
  {
  }

  /** The same for the consumer: only a push can spoil its attempt to take the stack. */
  lemma {:induction false} TakeIsLostToPush(states: seq<State>, steps: seq<Step>, i: nat, n: nat)
    requires Run(states, steps) && i < n < |states| && steps[i] in {StartTake, TakeFails}
    requires forall j :: i < j < n ==> !steps[j].PushOk? && !steps[j].TakeOk?
    ensures Enabled(states[n], TakeOk)
  {
    hide Inv;
    assert Follows(states[n - 1], steps[n - 1], states[n]);
    if n > i + 1 {
      TakeIsLostToPush(states, steps, i, n - 1);
    }
  }

  /** The consumer and the producers use a message's memory only while the message is alive. */
  lemma OnlyLiveMessagesAreTouched(states: seq<State>, steps: seq<Step>, n: nat)
    requires Run(states, steps) && n < |states|
    ensures var s := states[n];
            && (s.current != 0 ==> s.current in s.content && s.current in s.next)
            && (s.last != 0 ==> s.last in s.content)
            && (s.consumer.Reversing? && s.consumer.queue != 0 ==>
                   s.consumer.queue in s.content && s.consumer.queue in s.next)
            && (s.consumer.Relinking? ==> s.consumer.queue in s.content)
            && (s.consumer.Deleting? ==> s.consumer.entry in s.content)
            && (forall p {:trigger At(s, p)} :: !At(s, p).Idle? ==> At(s, p).entry in s.content)
  {
    RunsKeep(states, steps, n);
    var s := states[n];
    hide Run, Fifo;
    if s.available != [] { assert LinkedAt(s.next, s.available, 0); }
    if s.queue != [] { assert LinkedAt(s.next, s.queue, 0); }
  }
}
