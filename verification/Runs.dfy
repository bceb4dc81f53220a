/** What every run of the connector guarantees. */
module Runs {
  import opened Syndrome
  import opened Erasure
  import opened Rendezvous
  import opened System
  import opened Service
  import opened Safety
  import opened CallerSteps
  import opened EndToEnd

  datatype Run = Run(states: seq<State>, labels: seq<Label>)

  /** Any number of callers and writers, in any interleaving with the daemon, from the loading of the module. */
  predicate IsRun(r: Run) {
    && |r.states| == |r.labels| + 1 && Initial(r.states[0])
    && forall i :: 0 <= i < |r.labels| ==> Step(r.states[i], r.labels[i], r.states[i + 1])
  }

  lemma {:induction false} Always(r: Run, i: nat)
    requires IsRun(r) && i < |r.states|
    ensures Invariant(r.states[i])
  {
    hide Invariant, Step, Initial;
    if i == 0 {
      InvariantInitially(r.states[0]);
    } else {
      Always(r, i - 1);
      InvariantStep(r.states[i - 1], r.labels[i - 1], r.states[i]);
    }
  }

  // ----- The trace of a call -----

  /** What a step is in the life of the call in progress. */
  function EventOf(s: State, l: Label): (event: Event) {
    match l
    case CallerStep(id, _) =>
      if id in s.callers && s.callers[id].pc.InCall? then
        var r := CallUsp(s.g, s.callers[id].pc.k, s.callers[id].snc);
        if r.KStep? then r.e else Tau
      else Tau
    case DaemonStep =>
      if s.daemon.Running? && s.g.callUsp.Some? && (s.daemon.pc == DServing ==> s.daemon.job == Finished) then
        var r := Daemon(s.g.callUsp.value, s.g, s.daemon.pc);
        if r.DStep? then r.e else Tau
      else Tau
    case _ => Tau
  }

  /** The visible events of the steps i to j - 1. */
  function Trace(r: Run, i: nat, j: nat): (trace: seq<Event>)
    requires i <= j <= |r.labels| < |r.states|
  {
    if i == j then [] else Trace(r, i, j - 1) + Visible(EventOf(r.states[j - 1], r.labels[j - 1]))
  }

  /** What has been visible of a call since its caller passed the gate. */
  function SoFar(s: State, c: Caller): (events: seq<Event>) {
    match c.pc
    case InCall(k) => if s.g.callUsp.Some? then Prefix(PhaseAt(s, k)) else []
    case Killing => [Store, Begin, End, Return]
    case Upping => [Store, Begin, End, Return]
    case _ => []
  }

  /** The step is one of this call, or invisible; the caller's request and the memory it entered with are kept. */
  predicate CallContinues(s: State, l: Label, s': State, id: nat)
    requires id in s.callers
  {
    && id in s'.callers
    && var c, c' := s.callers[id], s'.callers[id];
       && c'.req == c.req && c'.entry == c.entry
       && (Inside(c'.pc) || (c.pc == Upping && c'.pc == Returned))
       && (if Inside(c'.pc) then SoFar(s', c') else [Store, Begin, End, Return]) == SoFar(s, c) + Visible(EventOf(s, l))
  }

  lemma OwnPacking(s: State, id: nat, block: nat, s': State)
    requires Invariant(s) && id in s.callers && s.callers[id].pc == Packing && Packs(s, id, s.callers[id], block, s')
    ensures CallContinues(s, CallerStep(id, block), s', id)
  {
    hide Inv, PhaseOf, ProtocolOk, CallersOk, DaemonOk, GateOk;
    Configured(s, id);
    IdleWhileNobody(s, id);
    InvEnter(s.g.callUsp.value, s.g, DaemonAt(s));
  }

  lemma IdleWhileNobody(s: State, id: nat)
    requires Invariant(s) && id in s.callers && Inside(s.callers[id].pc) && !s.callers[id].pc.InCall?
    ensures NobodyInCall(s) && s.g.configured && s.g.callUsp.Some? && InvAt(s, KOut)
  {
    hide Inv, GateOk, CallersOk;
    Configured(s, id);
    NoneButOne(s, id);
  }

  lemma CallInvariant(s: State, id: nat)
    requires Invariant(s) && id in s.callers && s.callers[id].pc.InCall?
    ensures s.g.configured && s.g.callUsp.Some? && s.callers[id].pc.k != KOut && InvAt(s, s.callers[id].pc.k)
  {
    hide Inv, GateOk, CallersOk;
    Configured(s, id);
  }

  lemma OwnCall(s: State, id: nat, block: nat, s': State)
    requires Invariant(s) && id in s.callers && s.callers[id].pc.InCall?
    requires Calls(s, id, s.callers[id], s.callers[id].pc.k, s')
    ensures CallContinues(s, CallerStep(id, block), s', id)
  {
    hide Inv, PhaseOf, Invariant, CallUsp, Cycle, Prefix, Visible;
    CallInvariant(s, id);
    var c := s.callers[id];
    var r := CallUsp(s.g, c.pc.k, c.snc);
    CallUspKeepsConf(s.g, c.pc.k, c.snc);
    CallerSimulates(s.g.callUsp.value, s.g, c.pc.k, DaemonAt(s), c.snc);
    CyclePrefix(PhaseAt(s, c.pc.k), r.e, PhaseOf(s.g.callUsp.value, r.g, r.pc, DaemonAt(s)));
  }

  lemma OwnKilling(s: State, id: nat, block: nat, s': State)
    requires id in s.callers && s.callers[id].pc == Killing && Kills(s, id, s.callers[id], s')
    ensures CallContinues(s, CallerStep(id, block), s', id)
  {}

  lemma OwnLeaving(s: State, id: nat, block: nat, s': State)
    requires id in s.callers && s.callers[id].pc == Upping && Leaves(s, id, s.callers[id], s')
    ensures CallContinues(s, CallerStep(id, block), s', id)
  {}

  /** Nobody else passes the gate while a caller is inside, so nobody else moves. */
  lemma OthersWait(s: State, id: nat, other: nat, block: nat, s': State)
    requires GateOk(s) && id in s.callers && Inside(s.callers[id].pc) && other != id
    ensures !CallerMoves(s, other, block, s')
  {
    hide Packs, Calls, Kills, Leaves, ConfLaw, WritersOk;
    OthersOutside(s, id) by { hide GateLaw; }
    assert id in InsideIds(s.callers);
    SubsetSize({id}, InsideIds(s.callers));
    assert s.g.gate == 0;
  }

  lemma OwnStep(s: State, id: nat, block: nat, s': State)
    requires Invariant(s) && id in s.callers && Inside(s.callers[id].pc) && CallerMoves(s, id, block, s')
    ensures CallContinues(s, CallerStep(id, block), s', id)
  {
    hide Invariant, Packs, Calls, Kills, Leaves, PassesGate, CallContinues;
    match s.callers[id].pc
    case Packing => OwnPacking(s, id, block, s');
    case InCall(_) => OwnCall(s, id, block, s');
    case Killing => OwnKilling(s, id, block, s');
    case Upping => OwnLeaving(s, id, block, s');
    case _ =>
  }

  /** A step in which neither the caller nor the protocol moves. */
  lemma Unmoved(s: State, l: Label, s': State, id: nat)
    requires id in s.callers && id in s'.callers && s'.callers[id] == s.callers[id] && Inside(s.callers[id].pc)
    requires s.g.callUsp.Some? && s'.g.callUsp == s.g.callUsp && SameProtocol(s.g, s'.g) && DaemonAt(s) == DaemonAt(s')
    requires EventOf(s, l) == Tau
    ensures CallContinues(s, l, s', id)
  {
    hide EventOf, PhaseOf, Inside, SameProtocol;
    var c := s.callers[id];
    if c.pc.InCall? {
      InvFrame(s.g.callUsp.value, s.g, s'.g, c.pc.k, DaemonAt(s));
    }
  }

  lemma DaemonTalks(s: State, s': State, id: nat)
    requires Invariant(s) && id in s.callers && Inside(s.callers[id].pc) && Talks(s, s')
    ensures CallContinues(s, DaemonStep, s', id)
  {
    hide Invariant, Inv, PhaseOf, Daemon, Cycle, Prefix, Inside;
    var c, t, d := s.callers[id], s.g.callUsp.value, s.daemon.pc;
    var r := Daemon(t, s.g, d);
    DaemonKeepsConf(t, s.g, d);
    DaemonEvents(t, s.g, d);
    if c.pc.InCall? {
      CallInvariant(s, id);
      DaemonSimulates(t, s.g, c.pc.k, d);
      CyclePrefix(PhaseAt(s, c.pc.k), r.e, PhaseAt(s', c.pc.k));
    } else {
      IdleWhileNobody(s, id);
      DaemonSimulates(t, s.g, KOut, d);
      OutsideIsIdle(t, s.g, d);
      IdleIsTau(r.e, PhaseOf(t, r.g, KOut, r.pc));
    }
  }

  lemma IdleIsTau(e: Event, a': Phase)
    requires Cycle(Idle, e, a') && e != Store
    ensures e == Tau
  {}

  lemma WriterContinues(s: State, w: nat, s': State, id: nat)
    requires Invariant(s) && id in s.callers && Inside(s.callers[id].pc) && WriterMoves(s, w, s')
    ensures CallContinues(s, WriterStep(w), s', id)
  {
    hide ProtocolOk, CallersOk, DaemonOk, GateOk, Inside, ConfWrite, WriterOk, CallContinues;
    Configured(s, id);
    WriterIsOk(s, w);
    ConfWriteFrame(s.g, s.writers[w]);
    Unmoved(s, WriterStep(w), s', id);
  }

  /** Between passing the gate and leaving, every step of anyone continues the call. */
  lemma EveryStepContinues(s: State, l: Label, s': State, id: nat)
    requires Invariant(s) && Step(s, l, s') && id in s.callers && Inside(s.callers[id].pc)
    ensures CallContinues(s, l, s', id)
  {
    hide Inside, GateOk, ProtocolOk, DaemonOk, CallersOk, CallerMoves, WriterMoves, Talks, CallContinues;
    Configured(s, id);
    match l
    case CallerStep(other, block) =>
      if other == id {
        OwnStep(s, id, block, s');
      } else {
        OthersWait(s, id, other, block, s');
      }
    case DaemonStep =>
      if Talks(s, s') {
        DaemonTalks(s, s', id);
      } else {
        Unmoved(s, l, s', id);
      }
    case WriterStep(w) => WriterContinues(s, w, s', id);
    case _ => Unmoved(s, l, s', id);
  }

  /** The only way inside is through the gate. */
  lemma OnlyThroughTheGate(s: State, l: Label, s': State, id: nat)
    requires Step(s, l, s') && id in s'.callers && Inside(s'.callers[id].pc)
    requires id in s.callers ==> !Inside(s.callers[id].pc)
    ensures PassesAt(s, l, id) && EventOf(s, l) == Tau
    ensures s'.callers[id] == s.callers[id].(pc := Packing, entry := s.mem)
  {
    hide Serve, Daemon, CallUsp, ConfWrite, ValidRequest, Present;
    if id in s.callers {
      OwnMove(s, l, s', id) by { hide Step; }
    }
  }

  predicate PassesAt(s: State, l: Label, id: nat) {
    id in s.callers && s.callers[id].pc == AtGate && l.CallerStep? && l.id == id
  }

  /** The call that a caller inside is in: where it passed the gate, and what has been visible since. */
  lemma {:induction false} Window(r: Run, id: nat, i: nat) returns (j: nat)
    requires IsRun(r) && i < |r.states| && id in r.states[i].callers && Inside(r.states[i].callers[id].pc)
    ensures j < i && PassesAt(r.states[j], r.labels[j], id)
    ensures var c := r.states[i].callers[id];
            && c.req == r.states[j].callers[id].req && c.entry == r.states[j].mem
            && Trace(r, j, i) == SoFar(r.states[i], c)
  {
    hide Inside, Step, Invariant, SoFar, PassesAt;
    assert i != 0 by { assert Initial(r.states[0]); }
    var s, l, s' := r.states[i - 1], r.labels[i - 1], r.states[i];
    assert Step(s, l, s');
    Always(r, i - 1);
    if id in s.callers && Inside(s.callers[id].pc) {
      j := Window(r, id, i - 1);
      EveryStepContinues(s, l, s', id);
    } else {
      j := i - 1;
      OnlyThroughTheGate(s, l, s', id);
      JustIn(s', s'.callers[id]);
      assert Trace(r, j, j) == [];
    }
  }

  lemma JustIn(s: State, c: Caller)
    requires c.pc == Packing
    ensures SoFar(s, c) == []
  {}

  // ----- The pointer arrays -----

  /** Between pack_smc and kill_smc. */
  predicate Holds(pc: CallerPc) {
    pc.InCall? || pc.Killing?
  }

  function HeldArrays(callers: map<nat, Caller>): (arrays: set<nat>) {
    set id | id in callers && Holds(callers[id].pc) :: callers[id].snc.ptrs
  }

  /** What is allocated is what callers hold. */
  predicate HeapLaw(s: State) {
    s.heap.Keys == HeldArrays(s.callers)
  }

  lemma NobodyHolds(callers: map<nat, Caller>)
    requires forall id :: id in callers ==> !Holds(callers[id].pc)
    ensures HeldArrays(callers) == {}
  {}

  lemma OneHolds(callers: map<nat, Caller>, id: nat)
    requires id in callers && Holds(callers[id].pc) && forall k :: k in callers && k != id ==> !Holds(callers[k].pc)
    ensures HeldArrays(callers) == {callers[id].snc.ptrs}
  {
    assert callers[id].snc.ptrs in HeldArrays(callers);
  }

  lemma HolderInside(pc: CallerPc)
    ensures Holds(pc) ==> Inside(pc)
  {}

  /** What caller `id` alone holds, when it is inside. */
  lemma HeldByOne(s: State, id: nat)
    requires GateOk(s) && id in s.callers && Inside(s.callers[id].pc)
    ensures HeldArrays(s.callers) == if Holds(s.callers[id].pc) then {s.callers[id].snc.ptrs} else {}
  {
    hide GateOk, Inside, Holds, HeldArrays;
    OthersOutside(s, id);
    forall k | k in s.callers && k != id
      ensures !Holds(s.callers[k].pc)
    {
      HolderInside(s.callers[k].pc);
    }
    if Holds(s.callers[id].pc) {
      OneHolds(s.callers, id);
    } else {
      NobodyHolds(s.callers);
    }
  }

  lemma HeldByNone(s: State)
    requires forall id :: id in s.callers ==> !Inside(s.callers[id].pc)
    ensures HeldArrays(s.callers) == {}
  {
    NobodyHolds(s.callers);
  }

  /** A caller's step on the heap, when it is inside. */
  lemma HeapInside(s: State, id: nat, block: nat, s': State)
    requires CallerMoves(s, id, block, s') && Inside(s.callers[id].pc) && s.g.callUsp.Some?
    requires s.heap.Keys == if Holds(s.callers[id].pc) then {s.callers[id].snc.ptrs} else {}
    ensures id in s'.callers && s'.heap.Keys == if Holds(s'.callers[id].pc) then {s'.callers[id].snc.ptrs} else {}
  {
    hide CallUsp;
    var c := s.callers[id];
    if c.pc.Packing? {
      assert s'.heap.Keys == s.heap.Keys + {block};
    } else if c.pc.Killing? {
      assert s'.heap.Keys == s.heap.Keys - {c.snc.ptrs};
    }
  }

  lemma HeapOwnStep(s: State, id: nat, block: nat, s': State)
    requires GateOk(s) && GateOk(s') && HeapLaw(s) && CallerMoves(s, id, block, s') && Inside(s.callers[id].pc)
    ensures HeapLaw(s')
  {
    hide GateOk, Inside, Holds, HeldArrays, CallerMoves;
    CallerKnown(s, id, block, s');
    HeldByOne(s, id);
    Configured(s, id);
    HeapInside(s, id, block, s');
    if Inside(s'.callers[id].pc) {
      HeldByOne(s', id);
    } else {
      HolderInside(s'.callers[id].pc);
      OthersOutside(s, id);
      CallerGate(s, id, block, s');
      HeldByNone(s');
    }
  }

  lemma SameHeld(s: State, s': State)
    requires HeapLaw(s) && s'.heap == s.heap
    requires forall id :: (id in s.callers && Holds(s.callers[id].pc)) <==>
             (id in s'.callers && Holds(s'.callers[id].pc))
    requires forall id :: id in s.callers && Holds(s.callers[id].pc) ==> s'.callers[id].snc == s.callers[id].snc
    ensures HeapLaw(s')
  {
    hide Holds;
    assert HeldArrays(s'.callers) == HeldArrays(s.callers);
  }

  lemma HeapGate(s: State, id: nat, block: nat, s': State)
    requires HeapLaw(s) && id in s.callers && CallerMoves(s, id, block, s') && !Inside(s.callers[id].pc)
    ensures HeapLaw(s')
  {
    hide HeapLaw, Packs, Calls, Kills, Leaves;
    SameHeld(s, s');
  }

  lemma HeapStep(s: State, l: Label, s': State)
    requires GateOk(s) && GateOk(s') && HeapLaw(s) && Step(s, l, s')
    ensures HeapLaw(s')
  {
    hide GateOk, CallerMoves, HeapLaw, Serve, Daemon, ConfWrite, ValidRequest, Present, Inside, Same;
    match l
    case CallerStep(id, block) =>
      CallerKnown(s, id, block, s');
      if Inside(s.callers[id].pc) {
        HeapOwnStep(s, id, block, s');
      } else {
        HeapGate(s, id, block, s');
      }
    case _ => SameHeld(s, s');
  }

  /** In every run exactly the arrays of the calls in progress are allocated. */
  lemma {:induction false} HeapAlways(r: Run, i: nat)
    requires IsRun(r) && i < |r.states|
    ensures HeapLaw(r.states[i])
  {
    hide Step, GateOk, ProtocolOk, DaemonOk, CallersOk, HeapLaw;
    if i == 0 {
      EmptyHeap(r.states[0]);
    } else {
      HeapAlways(r, i - 1);
      Always(r, i - 1);
      Always(r, i);
      assert Step(r.states[i - 1], r.labels[i - 1], r.states[i]);
      HeapStep(r.states[i - 1], r.labels[i - 1], r.states[i]);
    }
  }

  lemma EmptyHeap(s: State)
    requires Initial(s)
    ensures HeapLaw(s)
  {
    NobodyHolds(s.callers);
  }

  /** So nothing is allocated when nobody is inside. */
  lemma NothingAllocated(s: State)
    requires HeapLaw(s) && forall id :: id in s.callers ==> !Inside(s.callers[id].pc)
    ensures s.heap == map[]
  {
    hide HeldArrays;
    HeldByNone(s);
    NoKeys(s.heap);
  }

  lemma NoKeys(heap: map<nat, seq<Ptr>>)
    requires heap.Keys == {}
    ensures heap == map[]
  {}

  lemma NobodyAtOpenGate(s: State)
    requires GateLaw(s) && s.g.gate > 0
    ensures forall id :: id in s.callers ==> !Inside(s.callers[id].pc)
  {
    assert InsideIds(s.callers) == {};
    forall id | id in s.callers
      ensures !Inside(s.callers[id].pc)
    {
      assert id !in InsideIds(s.callers);
    }
  }

  lemma OpenWhenPassed(s: State, l: Label, s': State, id: nat)
    requires Step(s, l, s') && PassesAt(s, l, id)
    ensures s.g.gate > 0
  {}

  lemma NobodyAfterLeaving(s: State, l: Label, s': State, id: nat)
    requires Invariant(s) && Step(s, l, s') && id in s.callers && Inside(s.callers[id].pc)
    requires id in s'.callers && !Inside(s'.callers[id].pc)
    ensures forall k :: k in s'.callers ==> !Inside(s'.callers[k].pc)
  {
    hide ProtocolOk, DaemonOk, CallersOk, GateOk, Inside, Step;
    OthersOutside(s, id);
    OwnMove(s, l, s', id);
    CallerGate(s, id, l.block, s') by { OwnMoves(s, l, s'); }
  }

  lemma OwnMoves(s: State, l: Label, s': State)
    requires Step(s, l, s') && l.CallerStep?
    ensures CallerMoves(s, l.id, l.block, s')
  {}

  /** What a call allocates it frees: nothing is allocated when it passes the gate, and nothing after its return. */
  lemma CallFrees(r: Run, id: nat, j: nat, i: nat)
    requires IsRun(r) && j < |r.labels| && i < |r.labels| && PassesAt(r.states[j], r.labels[j], id)
    requires id in r.states[i].callers && id in r.states[i + 1].callers
    requires Inside(r.states[i].callers[id].pc) && r.states[i + 1].callers[id].pc == Returned
    ensures r.states[j].heap == map[] == r.states[i + 1].heap
  {
    hide Step, Initial, HeapLaw, PassesAt, ProtocolOk, DaemonOk, CallersOk, GateLaw, ConfLaw, WritersOk;
    Always(r, j);
    Always(r, i);
    HeapAlways(r, j);
    HeapAlways(r, i + 1);
    assert Step(r.states[j], r.labels[j], r.states[j + 1]) && Step(r.states[i], r.labels[i], r.states[i + 1]);
    OpenWhenPassed(r.states[j], r.labels[j], r.states[j + 1], id);
    NobodyAtOpenGate(r.states[j]);
    NothingAllocated(r.states[j]);
    NobodyAfterLeaving(r.states[i], r.labels[i], r.states[i + 1], id);
    NothingAllocated(r.states[i + 1]);
  }

  /** End to end.  Whenever a caller returns, in any run, its check disks hold P and Q of the data that it had
      when it passed the gate, its other disks are as they were then, and since then its container was stored,
      taken up, finished and returned, each exactly once and in this order. */
  lemma CallTheorem(r: Run, id: nat, i: nat)
    requires IsRun(r) && i < |r.labels| && id in r.states[i].callers && id in r.states[i + 1].callers
    requires Inside(r.states[i].callers[id].pc) && r.states[i + 1].callers[id].pc == Returned
    ensures exists j: nat :: j < i && PassesAt(r.states[j], r.labels[j], id)
                   && r.states[i + 1].callers[id].req == r.states[j].callers[id].req
                   && ValidRequest(r.states[j].callers[id].req)
                   && Result(r.states[i + 1].mem, r.states[j].mem, r.states[j].callers[id].req)
                   && Trace(r, j, i + 1) == [Store, Begin, End, Return]
                   && r.states[i + 1].heap == r.states[j].heap == map[]
  {
    hide Step, Initial, Invariant, Result, ValidRequest, EventOf, SoFar, PassesAt;
    var s, l, s' := r.states[i], r.labels[i], r.states[i + 1];
    var j := Window(r, id, i);
    Always(r, i);
    assert Step(s, l, s');
    EveryStepContinues(s, l, s', id) by { hide CallContinues; }
    LeavingHasResult(s, l, s', id);
    CallFrees(r, id, j, i);
    assert Trace(r, j, i + 1) == Trace(r, j, i) + Visible(EventOf(s, l));
  }

  /** A caller is moved by its own steps only. */
  lemma OwnMove(s: State, l: Label, s': State, id: nat)
    requires Step(s, l, s') && id in s.callers && id in s'.callers && s'.callers[id] != s.callers[id]
    ensures l.CallerStep? && l.id == id
  {
    hide CallerMoves, DaemonMoves, ConfWrite, ValidRequest, Present, Inside, Same;
    match l
    case CallerStep(other, block) => CallerGate(s, other, block, s');
    case DaemonStep => DaemonGate(s, s');
    case _ =>
  }

  lemma LeavingHasResult(s: State, l: Label, s': State, id: nat)
    requires Invariant(s) && Step(s, l, s') && id in s.callers && s.callers[id].pc == Upping
    requires id in s'.callers && s'.callers[id].pc == Returned
    ensures ValidRequest(s.callers[id].req) && s'.mem == s.mem && Result(s'.mem, s.callers[id].entry, s.callers[id].req)
  {
    hide GateOk, ProtocolOk, DaemonOk, Result;
    OwnMove(s, l, s', id) by { hide Step, CallersOk; }
  }

  /** What the result is for: two lost disks are determined.  Any data that agree with the caller's on all but two
      disks and have the P and Q that the call left behind are the caller's data. */
  lemma ResultProtects(mem: Memory, entry: Memory, r: Request, other: seq<seq<bv8>>, x: nat, y: nat)
    requires ValidRequest(r) && Result(mem, entry, r) && x < r.disks - 2 && y < r.disks - 2
    requires |other| == r.disks - 2 && Rectangular(other, r.bytes)
    requires forall z :: 0 <= z < r.disks - 2 && z != x && z != y ==> other[z] == entry[r.ptrs[z]][..r.bytes]
    requires PBuffer(other, r.bytes) == mem[r.ptrs[r.disks - 2]][..r.bytes]
    requires QBuffer(other, r.bytes) == mem[r.ptrs[r.disks - 1]][..r.bytes]
    ensures other == Data(entry, r, r.disks - 2)
  {
    hide PByte, QByte;
    var data := Data(entry, r, r.disks - 2);
    var p, q := PBuffer(data, r.bytes), QBuffer(data, r.bytes);
    assert mem[r.ptrs[r.disks - 2]][..r.bytes] == p && mem[r.ptrs[r.disks - 1]][..r.bytes] == q;
    BuffersEncode(data, r.bytes);
    BuffersEncode(other, r.bytes);
    WholeBuffers(data, r.bytes);
    WholeBuffers(other, r.bytes);
    StripesEqual(data, other, p, q, r.bytes, x, y);
  }

  lemma BuffersEncode(data: seq<seq<bv8>>, bytes: nat)
    requires Rectangular(data, bytes)
    ensures Encoded(data, PBuffer(data, bytes), QBuffer(data, bytes), bytes)
  {
    hide PByte, QByte;
  }

  lemma WholeBuffers(data: seq<seq<bv8>>, bytes: nat)
    requires Rectangular(data, bytes)
    ensures forall z :: 0 <= z < |data| ==> data[z][..bytes] == data[z]
  {}

  // ----- The way of marshalling -----

  /** The daemon's job is of the kind that it was built for: mapped buffers, or copies. */
  predicate JobKind(s: State) {
    s.daemon.Running? ==>
      && (s.daemon.job.Map? ==> !s.copy)
      && (s.daemon.job.Read? || s.daemon.job.WriteP? || s.daemon.job.WriteQ? ==> s.copy)
  }

  lemma ServeKind(copy: bool, g: Globals, heap: map<nat, seq<Ptr>>, mem: Memory, job: Job)
    requires (job.Map? ==> !copy) && (job.Read? || job.WriteP? || job.WriteQ? ==> copy)
    ensures var n := Serve(copy, g, heap, mem, job).job;
            (n.Map? ==> !copy) && (n.Read? || n.WriteP? || n.WriteQ? ==> copy)
  {
    hide PBuffer, QBuffer, Overwrite, MappedData, Readable;
  }

  lemma KindStep(s: State, l: Label, s': State)
    requires JobKind(s) && Step(s, l, s')
    ensures JobKind(s') && s'.copy == s.copy
  {
    hide Serve, Daemon, CallUsp, ConfWrite, ValidRequest, Present, Same;
    if s.daemon.Running? {
      ServeKind(s.copy, s.g, s.heap, s.mem, s.daemon.job);
    }
  }

  /** In every run: a daemon that copies maps nothing, and one that maps copies nothing. */
  lemma {:induction false} MarshalsOneWay(r: Run, i: nat)
    requires IsRun(r) && i < |r.states|
    ensures JobKind(r.states[i]) && r.states[i].copy == r.states[0].copy
  {
    hide Step, JobKind;
    if i == 0 {
      NoJobYet(r.states[0]);
    } else {
      MarshalsOneWay(r, i - 1);
      assert Step(r.states[i - 1], r.labels[i - 1], r.states[i]);
      KindStep(r.states[i - 1], r.labels[i - 1], r.states[i]);
    }
  }

  lemma NoJobYet(s: State)
    requires Initial(s)
    ensures JobKind(s)
  {}

  // ----- What no run reaches -----

  /** No call goes through an unset `call_usp`, none gives up on a netlink packet, and no service meets a freed
      pointer array, a bad index or a missing buffer. */
  lemma NothingFails(r: Run, i: nat)
    requires IsRun(r) && i < |r.states|
    ensures var s := r.states[i];
            && (forall id :: id in s.callers ==> s.callers[id].pc != Crashed && s.callers[id].pc != InCall(NFailed))
            && (s.daemon.Running? ==> s.daemon.job != Faulted)
  {
    hide Step, Initial, GateOk, InCallOk, ValidRequest, Present, Result, Same;
    Always(r, i);
    var s := r.states[i];
    forall id | id in s.callers
      ensures s.callers[id].pc != Crashed && s.callers[id].pc != InCall(NFailed)
    {
      assert CallerOk(s, s.callers[id]);
      if s.callers[id].pc.InCall? {
        CallInvariant(s, id) by { hide Inv; }
        NeverFailed(s.g.callUsp.value, s.g, s.callers[id].pc.k, DaemonAt(s));
      }
    }
  }

  lemma NeverFailed(t: Transport, g: Globals, k: KPc, d: DPc)
    requires Inv(t, g, k, d)
    ensures k != NFailed
  {}

  /** The protocol invariant of the configured transport holds in every run, for the place of the one caller in
      call_usp, or with nobody in it; so what it says of tokens, flags and packets does. */
  lemma ProtocolHolds(r: Run, i: nat) returns (k: KPc)
    requires IsRun(r) && i < |r.states| && r.states[i].g.configured
    ensures var s := r.states[i];
            && s.g.callUsp.Some? && Inv(s.g.callUsp.value, s.g, k, DaemonAt(s))
            && (if k == KOut then NobodyInCall(s) else exists id :: id in s.callers && s.callers[id].pc == InCall(k))
  {
    hide Step, Initial, GateOk, CallersOk, Inv, PhaseOf;
    Always(r, i);
    var s := r.states[i];
    if NobodyInCall(s) {
      k := KOut;
    } else {
      var id :| id in s.callers && s.callers[id].pc.InCall?;
      k := s.callers[id].pc.k;
    }
  }

  // ----- Containers -----

  /** The one caller inside is `id`, its container is the actual one, and that one's pointer array is not freed. */
  predicate HasContainer(s: State, id: nat) {
    && id in s.callers && s.callers[id].pc.InCall?
    && s.g.actualSnc == s.callers[id].snc
    && ContainerOf(s.g.actualSnc, s.heap, s.callers[id].req)
    && forall other :: other in s.callers && other != id ==> !Inside(s.callers[other].pc)
  }

  /** The daemon serves living containers only, in all three protocols. */
  lemma ServesLivingContainer(r: Run, i: nat) returns (id: nat)
    requires IsRun(r) && i < |r.states| && r.states[i].daemon.Running? && r.states[i].daemon.pc == DServing
    ensures HasContainer(r.states[i], id)
  {
    hide Step, Initial, GateOk, CallerOk, Inv, PhaseOf, ContainerOf, JobOk, ValidRequest, Present;
    Always(r, i);
    var s := r.states[i];
    StartedConfigured(s) by { hide CallersOk, ProtocolOk; }
    id := ServingSomeone(s);
    assert CallerOk(s, s.callers[id]);
    ServedCaller(s, s.callers[id]);
    OthersOutside(s, id);
  }

  lemma StartedConfigured(s: State)
    requires GateOk(s) && DaemonOk(s) && s.daemon.Running?
    ensures s.g.configured && s.g.callUsp.Some?
  {}

  predicate BetweenReadAndWrite(d: DPc) {
    d.DpUpRead? || d.DServing? || d.DpDownWrite? || d.DpSet?
  }

  /** procfs: from its read to its write the daemon finds the flag 0, and the caller blocked on it with its
      container. */
  lemma ProcfsLifetime(r: Run, i: nat) returns (id: nat)
    requires IsRun(r) && i < |r.states|
    requires r.states[i].g.callUsp == Some(PROCFS) && r.states[i].daemon.Running? &&
             BetweenReadAndWrite(r.states[i].daemon.pc)
    ensures var s := r.states[i];
            && s.g.procFlag == 0 && HasContainer(s, id) && s.callers[id].pc == InCall(PWait)
            && CallUsp(s.g, PWait, s.callers[id].snc) == KBlocked
  {
    hide Step, Initial, GateOk, CallerOk, ProcInv, ProcPhase, InCallOk, ContainerOf, JobOk, Result, ValidRequest,
        Present;
    Always(r, i);
    var s := r.states[i];
    StartedConfigured(s) by { hide CallersOk, ProtocolOk; }
    if NobodyInCall(s) {
      ProcServingBlocksCaller(s.g, KOut, s.daemon.pc);
      assert false;
    }
    id :| id in s.callers && s.callers[id].pc.InCall?;
    var c := s.callers[id];
    ProcServingBlocksCaller(s.g, c.pc.k, s.daemon.pc);
    ProcTaken(s.g, c.pc.k, s.daemon.pc);
    assert CallerOk(s, c);
    InCallFacts(s, c);
    TakenContainer(s, c, PhaseAt(s, c.pc.k));
    OthersOutside(s, id);
  }

  lemma ProcTaken(g: Globals, k: KPc, d: DPc)
    requires ProcInv(g, k, d) && BetweenReadAndWrite(d)
    ensures ProcPhase(g, k, d) == Serving || ProcPhase(g, k, d) == Served
  {}

  lemma TakenContainer(s: State, c: Caller, phase: Phase)
    requires ValidRequest(c.req) && InCallOk(s, c, phase) && (phase == Serving || phase == Served)
    ensures s.g.actualSnc == c.snc && ContainerOf(c.snc, s.heap, c.req)
  {
    hide ContainerOf, JobOk, Result, ValidRequest;
  }

  // ----- The gate -----

  predicate OpensGate(s: State, l: Label) {
    l.WriterStep? && l.id in s.writers && s.writers[l.id].UppingGate?
  }

  /** How often the steps before i opened the gate. */
  function Openings(r: Run, i: nat): (count: nat)
    requires i <= |r.labels| < |r.states|
  {
    if i == 0 then 0 else Openings(r, i - 1) + if OpensGate(r.states[i - 1], r.labels[i - 1]) then 1 else 0
  }

  lemma OpeningStep(s: State, l: Label, s': State)
    requires GateOk(s) && Step(s, l, s')
    ensures |GateUppers(s'.writers)| + (if OpensGate(s, l) then 1 else 0) + (if s.g.configured then 1 else 0)
         == |GateUppers(s.writers)| + (if s'.g.configured then 1 else 0)
  {
    hide CallerMoves, DaemonMoves, GateUppers, ConfLaw, GateLaw, ConfWrite, ValidRequest, Present;
    match l
    case CallerStep(id, block) => CallerGate(s, id, block, s');
    case DaemonStep => DaemonGate(s, s');
    case WriterArrive(id, cmd) => UppersUpdate(s.writers, id, AtConf(cmd));
    case WriterStep(id) =>
      UppersUpdate(s.writers, id, s'.writers[id]);
      ConfWriteOpens(s.g, s.writers[id]);
    case _ =>
  }

  lemma ConfWriteOpens(g: Globals, w: Writer)
    requires ConfWrite(g, w).WStep? && WriterOk(g, w)
    ensures var r := ConfWrite(g, w);
            (if r.w.UppingGate? then 1 else 0) + (if g.configured then 1 else 0) == if r.g.configured then 1 else 0
  {}

  /** The gate is opened once at most, however many writers race, and only when a pid and a transport are set. */
  lemma {:induction false} GateOpensOnce(r: Run, i: nat)
    requires IsRun(r) && i < |r.states|
    ensures Openings(r, i) + |GateUppers(r.states[i].writers)| == if r.states[i].g.configured then 1 else 0
    ensures r.states[i].g.configured ==> r.states[i].g.pid != 0 && r.states[i].g.callUsp.Some?
  {
    hide Step, GateUppers, GateLaw, ConfLaw, ProtocolOk, DaemonOk, CallersOk, OpensGate;
    Always(r, i);
    if i == 0 {
      NoUppers(r.states[0]);
    } else {
      GateOpensOnce(r, i - 1);
      Always(r, i - 1);
      assert Step(r.states[i - 1], r.labels[i - 1], r.states[i]);
      OpeningStep(r.states[i - 1], r.labels[i - 1], r.states[i]);
    }
  }

  lemma NoUppers(s: State)
    requires s.writers == map[]
    ensures |GateUppers(s.writers)| == 0
  {
    assert GateUppers(s.writers) == {};
  }
}
