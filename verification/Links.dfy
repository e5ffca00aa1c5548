/** The links and monitors of a process: counted sets of ports and handles, their references, and death signals. */
module Links {

  // ----- the counted set -----

  function Count(m: map<nat, nat>, k: nat): nat {
    if k in m then m[k] else 0
  }

  /** Counts of present keys are positive. */
  ghost predicate Positive(m: map<nat, nat>) {
    forall k :: k in m ==> 0 < m[k]
  }

  class MultiSet {
    var counts: map<nat, nat>

    ghost predicate Valid()
      reads this
    {
      Positive(counts)
    }

    constructor ()
      ensures Valid() && counts == map[]
    {
      counts := map[];
    }

    /** Add a key; says whether it is there for the first time. */
    method Add(k: nat) returns (first: bool)
      requires Valid()
      modifies this
      ensures Valid() && first == (k !in old(counts)) && counts == old(counts)[k := Count(old(counts), k) + 1]
    {
      var count := Count(counts, k);
      counts := counts[k := count + 1];
      first := count == 0;
    }

    /** Remove one occurrence; says whether it was the last. */
    method Remove(k: nat) returns (last: bool)
      requires Valid()
      modifies this
      ensures Valid() && last == (Count(old(counts), k) == 1)
      ensures counts.Keys == if last then old(counts.Keys) - {k} else old(counts.Keys)
      ensures forall j :: Count(counts, j) == if j == k && 0 < Count(old(counts), k) then Count(old(counts), k) - 1
                else Count(old(counts), j)
    {
      if k !in counts {
        return false;
      }
      if counts[k] > 1 {
        counts := counts[k := counts[k] - 1];
        return false;
      }
      counts := counts - {k};
      last := true;
    }
  }

  // ----- references -----

  function Ref(refs: map<nat, int>, k: nat): int {
    if k in refs then refs[k] else 0
  }

  function AddRef(refs: map<nat, int>, k: nat, n: int): map<nat, int> {
    refs[k := Ref(refs, k) + n]
  }

  /** What happens to the receiver while a signal is being sent: the code looks twice, the second time under a lock. */
  datatype Fate = Dead | DiesBetween | Lives

  /** A death message in a mailbox; it holds a reference to its port and one to the signal. */
  datatype Letter = Letter(port: nat, from: nat, kind: nat)

  /** A signal sent to a linked process. */
  datatype Deadly = Deadly(handle: nat, from: nat, kind: nat)

  /** The signal object shared by all copies: NULL until it is first needed. */
  datatype Shared = Null | Signal(refs: int)

  ghost function Times(xs: seq<nat>, k: nat): nat {
    if xs == [] then 0 else Times(xs[..|xs| - 1], k) + if xs[|xs| - 1] == k then 1 else 0
  }

  lemma TimesMore(xs: seq<nat>, x: nat, k: nat)
    ensures Times(xs + [x], k) == Times(xs, k) + if x == k then 1 else 0
  {
    assert (xs + [x])[..|xs|] == xs;
  }

  ghost function Addressees(mail: seq<Letter>): seq<nat> {
    if mail == [] then [] else Addressees(mail[..|mail| - 1]) + [mail[|mail| - 1].port]
  }

  lemma AddresseesMore(mail: seq<Letter>, l: Letter)
    ensures Addressees(mail + [l]) == Addressees(mail) + [l.port]
  {
    assert (mail + [l])[..|mail|] == mail;
  }

  /** One reference for every held key and one for every use; everything else belongs to others. */
  ghost predicate Balanced(refs: map<nat, int>, others: map<nat, int>, held: set<nat>, uses: seq<nat>) {
    forall k: nat {:trigger Ref(refs, k)} ::
        Ref(refs, k) == Ref(others, k) + (if k in held then 1 else 0) + Times(uses, k)
  }

  lemma Hold(refs: map<nat, int>, others: map<nat, int>, held: set<nat>, uses: seq<nat>, k: nat)
    requires Balanced(refs, others, held, uses) && k !in held
    ensures Balanced(AddRef(refs, k, 1), others, held + {k}, uses)
  {
    forall j: nat
      ensures Ref(AddRef(refs, k, 1), j) == Ref(others, j) + (if j in held + {k} then 1 else 0) + Times(uses, j)
    {
      assert Ref(refs, j) == Ref(others, j) + (if j in held then 1 else 0) + Times(uses, j);
    }
  }

  lemma Drop(refs: map<nat, int>, others: map<nat, int>, held: set<nat>, uses: seq<nat>, k: nat)
    requires Balanced(refs, others, held, uses) && k in held
    ensures Balanced(AddRef(refs, k, -1), others, held - {k}, uses)
  {
    forall j: nat
      ensures Ref(AddRef(refs, k, -1), j) == Ref(others, j) + (if j in held - {k} then 1 else 0) + Times(uses, j)
    {
      assert Ref(refs, j) == Ref(others, j) + (if j in held then 1 else 0) + Times(uses, j);
    }
  }

  lemma Use(refs: map<nat, int>, others: map<nat, int>, held: set<nat>, uses: seq<nat>, k: nat)
    requires Balanced(refs, others, held, uses)
    ensures Balanced(AddRef(refs, k, 1), others, held, uses + [k])
  {
    forall j: nat
      ensures Ref(AddRef(refs, k, 1), j) == Ref(others, j) + (if j in held then 1 else 0) + Times(uses + [k], j)
    {
      assert Ref(refs, j) == Ref(others, j) + (if j in held then 1 else 0) + Times(uses, j);
      TimesMore(uses, k, j);
    }
  }

  class ProcessLinks {
    var halfDead: bool
    var exitKind: nat
    const ports: MultiSet
    const handles: MultiSet
    var portRefs: map<nat, int>
    var handleRefs: map<nat, int>
    var mail: seq<Letter>
    var sent: seq<Deadly>
    /** The dying handles of signal objects that are alive. */
    ghost var signals: seq<nat>
    /** References held by the rest of the system. */
    ghost const otherPortRefs: map<nat, int>
    ghost const otherHandleRefs: map<nat, int>

    /**
     One reference per distinct port or handle, one per letter and one per live signal; everything else belongs to
     others.
     */
    ghost predicate Valid()
      reads this, ports, handles
    {
      && ports != handles && ports.Valid() && handles.Valid()
      && Balanced(portRefs, otherPortRefs, ports.counts.Keys, Addressees(mail))
      && Balanced(handleRefs, otherHandleRefs, handles.counts.Keys, signals)
    }

    constructor (portRefs: map<nat, int>, handleRefs: map<nat, int>)
      ensures Valid() && !halfDead && ports.counts == map[] && handles.counts == map[] && mail == [] && sent == []
      ensures signals == []
      ensures this.portRefs == portRefs && this.handleRefs == handleRefs && fresh(ports) && fresh(handles)
    {
      halfDead, exitKind := false, 1;
      this.portRefs, this.handleRefs := portRefs, handleRefs;
      otherPortRefs, otherHandleRefs := portRefs, handleRefs;
      mail, sent, signals := [], [], [];
      ports := new MultiSet();
      handles := new MultiSet();
    }

    method InsertPort(p: nat)
      requires Valid()
      modifies this`portRefs, ports
      ensures Valid() && ports.counts == old(ports.counts)[p := Count(old(ports.counts), p) + 1]
    {
      hide Balanced, Addressees;
      var first := ports.Add(p);
      assert ports.counts.Keys == old(ports.counts.Keys) + {p};
      if first {
        Hold(portRefs, otherPortRefs, old(ports.counts.Keys), Addressees(mail), p);
        portRefs := AddRef(portRefs, p, 1);
      } else {
        assert ports.counts.Keys == old(ports.counts.Keys);
      }
    }

    /** A process that is half dead accepts no links. */
    method InsertHandle(h: nat) returns (ok: bool)
      requires Valid()
      modifies this`handleRefs, handles
      ensures Valid() && ok == !halfDead
      ensures handles.counts == if ok then old(handles.counts)[h := Count(old(handles.counts), h) + 1]
                else old(handles.counts)
    {
      hide Balanced;
      if halfDead {
        return false;
      }
      var first := handles.Add(h);
      assert handles.counts.Keys == old(handles.counts.Keys) + {h};
      if first {
        Hold(handleRefs, otherHandleRefs, old(handles.counts.Keys), signals, h);
        handleRefs := AddRef(handleRefs, h, 1);
      } else {
        assert handles.counts.Keys == old(handles.counts.Keys);
      }
      ok := true;
    }

    method RemovePort(p: nat)
      requires Valid()
      modifies this`portRefs, ports
      ensures Valid()
      ensures forall j :: Count(ports.counts, j) == if j == p
                && 0 < Count(old(ports.counts), p) then Count(old(ports.counts), p) - 1 else Count(old(ports.counts), j)
    {
      hide Balanced, Addressees;
      var last := ports.Remove(p);
      if last {
        Drop(portRefs, otherPortRefs, old(ports.counts.Keys), Addressees(mail), p);
        portRefs := AddRef(portRefs, p, -1);
      }
    }

    method RemoveHandle(h: nat)
      requires Valid()
      modifies this`handleRefs, handles
      ensures Valid()
      ensures forall j :: Count(handles.counts, j) == if j == h
                && 0 < Count(old(handles.counts), h) then Count(old(handles.counts), h) - 1
                else Count(old(handles.counts), j)
    {
      hide Balanced;
      var last := handles.Remove(h);
      if last {
        Drop(handleRefs, otherHandleRefs, old(handles.counts.Keys), signals, h);
        handleRefs := AddRef(handleRefs, h, -1);
      }
    }

    // ----- death -----

    /** The bookkeeping while signals are being sent: `held` are the ports and handles not yet let go. */
    ghost predicate Sending(heldPorts: set<nat>, heldHandles: set<nat>, signal: Shared, dying: nat, copies: nat)
      reads this`portRefs, this`handleRefs, this`mail, this`signals
    {
      && Balanced(portRefs, otherPortRefs, heldPorts, Addressees(mail))
      && Balanced(handleRefs, otherHandleRefs, heldHandles, if signal.Null? then signals else signals + [dying])
      && (signal.Null? ==> copies == 0) && (signal.Signal? ==> signal.refs == copies + 1)
    }

    lemma StartsSending(dying: nat)
      requires Valid()
      ensures Sending(ports.counts.Keys, handles.counts.Keys, Null, dying, 0)
    {
    }

    lemma PortsBalanced(heldPorts: set<nat>, heldHandles: set<nat>, signal: Shared, dying: nat, copies: nat)
      requires Sending(heldPorts, heldHandles, signal, dying, copies)
      ensures Balanced(portRefs, otherPortRefs, heldPorts, Addressees(mail))
    {
    }

    /** Make the signal object if there is none yet. */
    method Needed(signal: Shared, dying: nat, ghost heldPorts: set<nat>, ghost heldHandles: set<nat>, ghost copies: nat)
        returns (signal': Shared)
      requires Sending(heldPorts, heldHandles, signal, dying, copies)
      modifies this`handleRefs
      ensures signal'.Signal? && Sending(heldPorts, heldHandles, signal', dying, copies)
    {
      hide Balanced, Addressees;
      signal' := signal;
      if signal.Null? {
        Use(handleRefs, otherHandleRefs, heldHandles, signals, dying);
        handleRefs := AddRef(handleRefs, dying, 1);
        signal' := Signal(1);
      }
    }

    /** Send one death message to a monitoring port. */
    method EnqueueSignal(port: nat, dying: nat, kind: nat, signal: Shared, fate: Fate, ghost heldPorts: set<nat>,
                         ghost heldHandles: set<nat>, ghost copies: nat)
        returns (signal': Shared)
      requires Sending(heldPorts, heldHandles, signal, dying, copies)
      modifies this`portRefs, this`handleRefs, this`mail
      ensures mail == if fate.Lives? then old(mail) + [Letter(port, dying, kind)] else old(mail)
      ensures Sending(heldPorts, heldHandles, signal', dying, if fate.Lives? then copies + 1 else copies)
    {
      hide Balanced, Addressees;
      signal' := signal;
      if !fate.Dead? {
        signal' := Needed(signal, dying, heldPorts, heldHandles, copies);
        signal' := Signal(signal'.refs + 1);
        portRefs := AddRef(portRefs, port, 1);
        Use(old(portRefs), otherPortRefs, heldPorts, Addressees(mail), port);
        if fate.Lives? {
          AddresseesMore(mail, Letter(port, dying, kind));
          mail := mail + [Letter(port, dying, kind)];
        } else {
          Unuse(old(portRefs), otherPortRefs, heldPorts, Addressees(mail), port);
          portRefs := AddRef(portRefs, port, -1);
          signal' := Signal(signal'.refs - 1);
        }
      }
    }

    /** Send the signal to a linked process. */
    method SendSignal(handle: nat, dying: nat, kind: nat, signal: Shared, fate: Fate, ghost heldPorts: set<nat>,
                      ghost heldHandles: set<nat>, ghost copies: nat)
        returns (signal': Shared)
      requires Sending(heldPorts, heldHandles, signal, dying, copies)
      modifies this`handleRefs, this`sent
      ensures sent == if fate.Lives? then old(sent) + [Deadly(handle, dying, kind)] else old(sent)
      ensures Sending(heldPorts, heldHandles, signal', dying, if fate.Lives? then copies + 1 else copies)
    {
      hide Balanced, Addressees;
      signal' := signal;
      if !fate.Dead? {
        signal' := Needed(signal, dying, heldPorts, heldHandles, copies);
        if fate.Lives? {
          signal' := Signal(signal'.refs + 1);
          sent := sent + [Deadly(handle, dying, kind)];
        }
      }
    }

    method SendAndLetGo(handle: nat, dying: nat, kind: nat, first: Shared, fate: Fate, ghost heldPorts: set<nat>,
                        ghost heldHandles: set<nat>, ghost sentBefore: nat)
        returns (signal: Shared, ghost copies: nat)
      requires Sending(heldPorts, heldHandles, first, dying, sentBefore) && handle in heldHandles
      modifies this`handleRefs, this`sent
      ensures sent == if fate.Lives? then old(sent) + [Deadly(handle, dying, kind)] else old(sent)
      ensures copies - sentBefore == |sent| - |old(sent)|
      ensures Sending(heldPorts, heldHandles - {handle}, signal, dying, copies)
    {
      hide Balanced, Addressees;
      copies := if fate.Lives? then sentBefore + 1 else sentBefore;
      signal := SendSignal(handle, dying, kind, first, fate, heldPorts, heldHandles, sentBefore);
      Drop(handleRefs, otherHandleRefs, heldHandles, if signal.Null? then signals else signals + [dying], handle);
      handleRefs := AddRef(handleRefs, handle, -1);
    }

    /** The sender gives up its own reference; a signal without copies goes away. */
    method Release(signal: Shared, dying: nat, ghost heldPorts: set<nat>, ghost heldHandles: set<nat>,
                   ghost copies: nat)
        returns (refs: int)
      requires Sending(heldPorts, heldHandles, signal, dying, copies)
      modifies this`handleRefs, this`signals
      ensures refs == copies && signals == if 0 < copies then old(signals) + [dying] else old(signals)
      ensures Balanced(handleRefs, otherHandleRefs, heldHandles, signals)
    {
      hide Balanced, Addressees;
      refs := 0;
      if signal.Signal? {
        refs := signal.refs - 1;
        if refs == 0 {
          Unuse0(handleRefs, otherHandleRefs, heldHandles, signals, dying);
          handleRefs := AddRef(handleRefs, dying, -1);
        } else {
          signals := signals + [dying];
        }
      }
    }

    /** The messages that have been added all come from the dying process. */
    ghost predicate From(mail: seq<Letter>, mail': seq<Letter>, dying: nat, kind: nat) {
      mail <= mail' && forall i :: |mail| <= i < |mail'| ==> mail'[i].from == dying && mail'[i].kind == kind
    }

    /** Send all messages to one port. */
    method EnqueueAll(port: nat, count: nat, dying: nat, first: Shared, fate: (nat, nat) -> Fate,
                      ghost heldPorts: set<nat>, ghost heldHandles: set<nat>, ghost sentBefore: nat)
        returns (signal: Shared, ghost copies: nat)
      requires Sending(heldPorts, heldHandles, first, dying, sentBefore)
      modifies this`portRefs, this`handleRefs, this`mail
      ensures Sending(heldPorts, heldHandles, signal, dying, copies) && copies - sentBefore == |mail| - |old(mail)|
      ensures From(old(mail), mail, dying, exitKind)
      ensures forall p: nat ::
                Times(Addressees(mail), p) == Times(Addressees(old(mail)), p) + if p ==
                port then LivesIn(fate, port, count) else 0
    {
      hide Balanced, Addressees, Times, LivesIn;
      signal, copies := first, sentBefore;
      ghost var before := Addressees(mail);
      NoneYet(fate, port);
      for i := 0 to count
        invariant Sending(heldPorts, heldHandles, signal, dying, copies) && copies - sentBefore == |mail| - |old(mail)|
        invariant From(old(mail), mail, dying, exitKind)
        invariant forall p: nat ::
                    Times(Addressees(mail), p) == Times(before, p) + if p == port then LivesIn(fate, port, i) else 0
      {
        ghost var was := mail;
        signal := EnqueueSignal(port, dying, exitKind, signal, fate(port, i), heldPorts, heldHandles, copies);
        if fate(port, i).Lives? {
          copies := copies + 1;
          LetterCounts(was, Letter(port, dying, exitKind));
        }
        OneMore(fate, port, i);
      }
    }

    /**
     Tell the monitors. Every port gets as many messages as its count, except those for which it was found
     dead; the signal object is left with one reference per message.
     */
    method NotifyMonitors(dying: nat, fate: (nat, nat) -> Fate) returns (refs: int)
      requires Valid() && halfDead
      modifies this`portRefs, this`handleRefs, this`mail, this`signals, ports
      ensures Valid() && ports.counts == map[] && refs == |mail| - |old(mail)| && From(old(mail), mail, dying, exitKind)
      ensures forall p: nat ::
                Times(Addressees(mail), p) == Times(Addressees(old(mail)), p)
                + LivesIn(fate, p, Count(old(ports.counts), p))
      ensures |signals| == |old(signals)| + if refs > 0 then 1 else 0
    {
      hide Balanced, Addressees, Times, LivesIn;
      var signal := Null;
      var counts := ports.counts;
      var rest := counts.Keys;
      ghost var h, copies := handles.counts.Keys, 0;
      ghost var uses := Addressees(mail);
      while rest != {}
        invariant rest <= counts.Keys && Sending(rest, h, signal, dying, copies) && copies == |mail| - |old(mail)|
        invariant From(old(mail), mail, dying, exitKind) && ports.counts == counts && signals == old(signals)
        invariant forall p: nat :: Times(Addressees(mail), p) == Times(uses, p) + if p in counts
                    && p !in rest then LivesIn(fate, p, counts[p]) else 0
        decreases |rest|
      {
        var port :| port in rest;
        signal, copies := EnqueueAll(port, counts[port], dying, signal, fate, rest, h, copies);
        Drop(portRefs, otherPortRefs, rest, Addressees(mail), port);
        portRefs := AddRef(portRefs, port, -1);
        rest := rest - {port};
      }
      ports.counts := map[];
      refs := Release(signal, dying, {}, h, copies);
      AbsentPorts(fate, counts);
      assert ports.counts.Keys == {};
    }

    /**
     Tell the linked processes. Each one that is alive gets one signal however often it was linked; from then
     on the process is half dead.
     */
    method NotifyLinkedProcesses(dying: nat, kind: nat, fate: nat -> Fate) returns (refs: int)
      requires Valid() && !halfDead
      modifies this, handles
      ensures Valid() && halfDead && exitKind == kind && handles.counts == map[] && mail == old(mail)
      ensures refs == |sent| - |old(sent)| && SentBy(old(sent), sent, dying, kind)
      ensures OnceEach(old(sent), sent, old(handles.counts.Keys), fate)
      ensures |signals| == |old(signals)| + if refs > 0 then 1 else 0
    {
      hide Balanced, Addressees, OnceEach, SentBy, ProcessLinks.Sending;
      ghost var held := ports.counts.Keys;
      StartsSending(dying);
      var signal, copies := SendAll(handles.counts.Keys, dying, kind, fate, held);
      PortsBalanced(held, {}, signal, dying, copies);
      handles.counts := map[];
      halfDead, exitKind := true, kind;
      refs := Release(signal, dying, held, {}, copies);
      assert handles.counts.Keys == {};
    }

    /** Send one signal to each of a set of processes and let go of their handles. */
    method SendAll(all: set<nat>, dying: nat, kind: nat, fate: nat -> Fate, ghost held: set<nat>)
        returns (signal: Shared, ghost copies: nat)
      requires Sending(held, all, Null, dying, 0)
      modifies this`handleRefs, this`sent
      ensures Sending(held, {}, signal, dying, copies) && copies == |sent| - |old(sent)|
      ensures SentBy(old(sent), sent, dying, kind) && OnceEach(old(sent), sent, all, fate)
    {
      hide OnceEach, SentBy, ProcessLinks.Sending;
      signal, copies := Null, 0;
      var rest := all;
      ghost var done := {};
      NoneSent(sent, fate, dying, kind);
      while rest != {}
        invariant done == all - rest && rest <= all && Sending(held, rest, signal, dying, copies)
        invariant copies == |sent| - |old(sent)|
        invariant SentBy(old(sent), sent, dying, kind) && OnceEach(old(sent), sent, done, fate)
        decreases |rest|
      {
        var handle :| handle in rest;
        OnceMore(old(sent), sent, done, fate, Deadly(handle, dying, kind));
        signal, copies := SendAndLetGo(handle, dying, kind, signal, fate(handle), held, rest, copies);
        rest, done := rest - {handle}, done + {handle};
      }
      assert done == all;
    }
  }

  /** The signals that have been added all come from the dying process. */
  ghost predicate SentBy(sent: seq<Deadly>, sent': seq<Deadly>, dying: nat, kind: nat) {
    sent <= sent' && forall i :: |sent| <= i < |sent'| ==> sent'[i].from == dying && sent'[i].kind == kind
  }

  /** Every process in the set that stays alive has got one more signal, and no other process has. */
  ghost predicate OnceEach(before: seq<Deadly>, after: seq<Deadly>, done: set<nat>, fate: nat -> Fate) {
    forall h: nat :: Times(Receivers(after), h) == Times(Receivers(before), h) + if h in done && fate(h).Lives? then 1
        else 0
  }

  lemma NoneSent(sent: seq<Deadly>, fate: nat -> Fate, dying: nat, kind: nat)
    ensures OnceEach(sent, sent, {}, fate) && SentBy(sent, sent, dying, kind)
  {
  }

  lemma OnceMore(before: seq<Deadly>, after: seq<Deadly>, done: set<nat>, fate: nat -> Fate, d: Deadly)
    requires OnceEach(before, after, done, fate) && d.handle !in done && SentBy(before, after, d.from, d.kind)
    ensures OnceEach(before, if fate(d.handle).Lives? then after + [d] else after, done + {d.handle}, fate)
    ensures SentBy(before, if fate(d.handle).Lives? then after + [d] else after, d.from, d.kind)
  {
    hide Times, Receivers;
    SentCounts(after, d);
  }

  ghost function Receivers(sent: seq<Deadly>): seq<nat> {
    if sent == [] then [] else Receivers(sent[..|sent| - 1]) + [sent[|sent| - 1].handle]
  }

  lemma SentCounts(sent: seq<Deadly>, d: Deadly)
    ensures forall h: nat :: Times(Receivers(sent + [d]), h) == Times(Receivers(sent), h) + if h == d.handle then 1
              else 0
  {
    hide Times;
    assert (sent + [d])[..|sent|] == sent;
    forall h: nat
      ensures Times(Receivers(sent + [d]), h) == Times(Receivers(sent), h) + if h == d.handle then 1 else 0
    {
      TimesMore(Receivers(sent), d.handle, h);
    }
  }

  /** How many of the first n messages to a port arrive. */
  ghost function LivesIn(fate: (nat, nat) -> Fate, p: nat, n: nat): nat {
    if n == 0 then 0 else LivesIn(fate, p, n - 1) + if fate(p, n - 1).Lives? then 1 else 0
  }

  lemma NoneYet(fate: (nat, nat) -> Fate, p: nat)
    ensures LivesIn(fate, p, 0) == 0
  {
  }

  lemma OneMore(fate: (nat, nat) -> Fate, p: nat, n: nat)
    ensures LivesIn(fate, p, n + 1) == LivesIn(fate, p, n) + if fate(p, n).Lives? then 1 else 0
  {
  }

  lemma AbsentPorts(fate: (nat, nat) -> Fate, counts: map<nat, nat>)
    ensures forall p: nat :: p !in counts ==> LivesIn(fate, p, Count(counts, p)) == 0
  {
  }

  /** A port that lives throughout gets exactly its count. */
  lemma {:induction false} AllArrive(fate: (nat, nat) -> Fate, p: nat, n: nat)
    requires forall i: nat :: i < n ==> fate(p, i).Lives?
    ensures LivesIn(fate, p, n) == n
  {
    if n > 0 { AllArrive(fate, p, n - 1); }
  }

  lemma LetterCounts(mail: seq<Letter>, l: Letter)
    ensures forall p: nat :: Times(Addressees(mail + [l]), p) == Times(Addressees(mail), p) + if p == l.port then 1
              else 0
  {
    hide Times, Addressees;
    AddresseesMore(mail, l);
    forall p: nat
      ensures Times(Addressees(mail + [l]), p) == Times(Addressees(mail), p) + if p == l.port then 1 else 0
    {
      TimesMore(Addressees(mail), l.port, p);
    }
  }

  lemma Unuse(refs: map<nat, int>, others: map<nat, int>, held: set<nat>, uses: seq<nat>, k: nat)
    requires Balanced(refs, others, held, uses)
    ensures Balanced(AddRef(AddRef(refs, k, 1), k, -1), others, held, uses)
  {
    forall j: nat
      ensures Ref(AddRef(AddRef(refs, k, 1), k, -1), j) == Ref(others, j) + (if j in held then 1 else 0)
                + Times(uses, j)
    {
      assert Ref(refs, j) == Ref(others, j) + (if j in held then 1 else 0) + Times(uses, j);
    }
  }

  lemma Unuse0(refs: map<nat, int>, others: map<nat, int>, held: set<nat>, uses: seq<nat>, k: nat)
    requires Balanced(refs, others, held, uses + [k])
    ensures Balanced(AddRef(refs, k, -1), others, held, uses)
  {
    forall j: nat
      ensures Ref(AddRef(refs, k, -1), j) == Ref(others, j) + (if j in held then 1 else 0) + Times(uses, j)
    {
      assert Ref(refs, j) == Ref(others, j) + (if j in held then 1 else 0) + Times(uses + [k], j);
      TimesMore(uses, k, j);
    }
  }
}
