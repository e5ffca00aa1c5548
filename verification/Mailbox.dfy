/**
 The lock-free mailbox as atomic steps of many producers and one consumer. Producers push onto a stack with
 compare-and-swap; the consumer takes the whole stack, reverses it in place and hands messages out one by
 one. A compare-and-swap may fail although the values are equal, and the address of a deleted message may
 be used again for a new one.
 */
module Mailbox {
  import opened Chains

  datatype Producer =
    | Idle
    | Holding(entry: nat)                  // about to read last_message
    | Loaded(entry: nat, seen: nat)        // about to set the entry's next pointer
    | Linked(entry: nat, seen: nat)        // about to compare and swap

  datatype Consumer =
    | Ready
    | Taking(seen: nat)                    // about to compare and swap
    | Reversing(queue: nat, previous: nat)
    | Relinking(queue: nat, previous: nat, rest: nat)
    | Deleting(entry: nat)

  /** Where a message is. */
  datatype Place = InStack | InQueue | InPrevious | InCurrent | Dying | With(producer: nat)

  datatype State = State(
    last: nat, current: nat,               // 0 is NULL
    next: map<nat, nat>,
    content: map<nat, nat>,                // of live messages
    producers: map<nat, Producer>,
    consumer: Consumer,
    // history
    place: map<nat, Place>,                // of live messages
    stack: seq<nat>,                       // addresses, last pushed first
    queue: seq<nat>, previous: seq<nat>,   // the two halves of a reversal
    available: seq<nat>,                   // the messages from current on
    pushed: seq<nat>,                      // contents in the order of successful pushes
    delivered: seq<nat>)                   // contents in the order of delivery

  function At(s: State, p: nat): Producer {
    if p in s.producers then s.producers[p] else Idle
  }

  datatype Step =
    | New(p: nat, address: nat, message: nat) | Load(p: nat) | SetNext(p: nat) | PushOk(p: nat) | PushFails(p: nat)
    | StartTake | TakeOk | TakeFails | ReadNext | Relink | Reversed | Advance | Delete

  predicate Enabled(s: State, step: Step) {
    match step
    case New(p, a, _) => At(s, p).Idle? && a != 0 && a !in s.content
    case Load(p) => At(s, p).Holding?
    case SetNext(p) => At(s, p).Loaded?
    case PushOk(p) => At(s, p).Linked? && At(s, p).entry in s.content && s.last == At(s, p).seen
    case PushFails(p) => At(s, p).Linked?
    case StartTake => s.consumer.Ready? && s.current == 0
    case TakeOk => s.consumer.Taking? && s.last == s.consumer.seen
    case TakeFails => s.consumer.Taking?
    case ReadNext => s.consumer.Reversing? && s.consumer.queue != 0 && s.consumer.queue in s.next
    case Relink => s.consumer.Relinking?
    case Reversed => s.consumer.Reversing? && s.consumer.queue == 0
    case Advance => s.consumer.Ready? && s.current != 0 && s.current in s.next && s.current in s.content
    case Delete => s.consumer.Deleting?
  }

  function Rest(q: seq<nat>): seq<nat> {
    if q == [] then [] else q[1..]
  }

  /** The places after all messages of a sequence have moved. */
  function MoveAll(place: map<nat, Place>, es: seq<nat>, target: Place): (m: map<nat, Place>)
    ensures forall x :: x in m <==> x in place || x in es
    ensures forall x :: x in m ==> m[x] == if x in es then target else place[x]
  {
    if es == [] then place else MoveAll(place, es[1..], target)[es[0] := target]
  }

  function Apply(s: State, step: Step): State
    requires Enabled(s, step)
  {
    match step
    case New(p, a, m) =>
      s.(next := s.next[a := 0], content := s.content[a := m], producers := s.producers[p := Holding(a)],
          place := s.place[a := With(p)])
    case Load(p) => s.(producers := s.producers[p := Loaded(At(s, p).entry, s.last)])
    case SetNext(p) =>
      var e, seen := At(s, p).entry, At(s, p).seen;
      s.(next := s.next[e := seen], producers := s.producers[p := Linked(e, seen)])
    case PushOk(p) =>
      var e := At(s, p).entry;
      s.(last := e, producers := s.producers[p := Idle], place := s.place[e := InStack], stack := [e] + s.stack,
          pushed := s.pushed + [s.content[e]])
    case PushFails(p) => s.(producers := s.producers[p := Loaded(At(s, p).entry, s.last)])
    case StartTake => s.(consumer := Taking(s.last))
    case TakeOk =>
      s.(last := 0, consumer := Reversing(s.consumer.seen, 0), place := MoveAll(s.place, s.stack, InQueue),
          queue := s.stack, previous := [], stack := [])
    case TakeFails => s.(consumer := Taking(s.last))
    case ReadNext => s.(consumer := Relinking(s.consumer.queue, s.consumer.previous, s.next[s.consumer.queue]))
    case Relink =>
      var q := s.consumer.queue;
      s.(next := s.next[q := s.consumer.previous], consumer := Reversing(s.consumer.rest, q),
         place := s.place[q := InPrevious], queue := Rest(s.queue), previous := [q] + s.previous)
    case Reversed =>
      s.(current := s.consumer.previous, consumer := Ready, place := MoveAll(s.place, s.previous, InCurrent),
          available := s.previous, previous := [])
    case Advance =>
      s.(current := s.next[s.current], consumer := Deleting(s.current), place := s.place[s.current := Dying],
         available := Rest(s.available), delivered := s.delivered + [s.content[s.current]])
    case Delete =>
      s.(content := s.content - {s.consumer.entry}, place := s.place - {s.consumer.entry}, consumer := Ready)
  }

  // ----- the invariant -----

  /** The members of a sequence are the messages at one place. */
  ghost predicate Holds(place: map<nat, Place>, q: seq<nat>, where: Place) {
    forall x :: x in q <==> x in place && place[x] == where
  }

  /** The pointers and the sequences agree. */
  ghost predicate ChainsOk(s: State) {
    && Chained(s.next, s.stack) && Chained(s.next, s.queue) && Chained(s.next, s.previous)
    && Chained(s.next, s.available)
    && s.last == Head(s.stack) && s.current == Head(s.available)
    && (s.consumer.Reversing? || s.consumer.Relinking? ==>
           s.consumer.queue == Head(s.queue) && s.consumer.previous == Head(s.previous) && s.available == [])
    && (s.consumer.Relinking? ==> s.queue != [] && s.consumer.rest == Head(s.queue[1..]))
    && (s.consumer.Taking? ==> s.available == [])
    && (!(s.consumer.Reversing? || s.consumer.Relinking?) ==> s.queue == [] && s.previous == [])
  }

  ghost predicate PlacesOk(s: State) {
    && s.place.Keys == s.content.Keys && 0 !in s.place
    && Holds(s.place, s.stack, InStack) && Holds(s.place, s.queue, InQueue) && Holds(s.place, s.previous, InPrevious)
    && Holds(s.place, s.available, InCurrent)
    && (s.consumer.Deleting? ==> s.consumer.entry in s.place && s.place[s.consumer.entry] == Dying)
  }

  /** Every message outside the mailbox belongs to one producer, and its next pointer is what the producer set. */
  ghost predicate ProducersOk(s: State) {
    && (forall p {:trigger At(s, p)} :: !At(s, p).Idle? ==>
           At(s, p).entry in s.place && s.place[At(s, p).entry] == With(p))
    && (forall x :: x in s.place && s.place[x].With? ==>
           !At(s, s.place[x].producer).Idle? && At(s, s.place[x].producer).entry == x)
    && (forall p {:trigger At(s, p)} :: At(s, p).Linked? ==>
           At(s, p).entry in s.next && s.next[At(s, p).entry] == At(s, p).seen)
  }

  ghost function Contents(content: map<nat, nat>, q: seq<nat>): seq<nat> {
    if q == [] then [] else [if q[0] in content then content[q[0]] else 0] + Contents(content, q[1..])
  }

  ghost function Reverse(q: seq<nat>): seq<nat> {
    if q == [] then [] else Reverse(q[1..]) + [q[0]]
  }

  /** Messages that have been pushed but not delivered, oldest first. */
  ghost function Pending(s: State): seq<nat> {
    Contents(s.content, s.available) + Reverse(Contents(s.content, s.queue)) + Contents(s.content, s.previous)
        + Reverse(Contents(s.content, s.stack))
  }

  /** Nothing is lost, nothing is doubled, and the order is the order of the pushes. */
  ghost predicate Fifo(s: State) {
    s.pushed == s.delivered + Pending(s)
  }

  ghost predicate Inv(s: State) {
    ChainsOk(s) && PlacesOk(s) && ProducersOk(s) && Fifo(s)
  }

  ghost predicate Initial(s: State) {
    s == State(0, 0, map[], map[], map[], Ready, map[], [], [], [], [], [], [])
  }

  lemma InitialOk(s: State)
    requires Initial(s)
    ensures Inv(s)
  {
  }
}
