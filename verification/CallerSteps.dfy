/** What holds for the callers, the daemon and the protocol between them; every step of a caller keeps it. */
module CallerSteps {
  import opened Rendezvous
  import opened System
  import opened Service
  import opened Safety

  /** Where the daemon is; before it starts, it is as good as before its first statement. */
  function DaemonAt(s: State): (d: DPc)
    requires s.g.callUsp.Some?
  {
    if s.daemon.Running? then s.daemon.pc else DaemonEntry(s.g.callUsp.value)
  }

  function PhaseAt(s: State, k: KPc): (phase: Phase)
    requires s.g.callUsp.Some?
  {
    PhaseOf(s.g.callUsp.value, s.g, k, DaemonAt(s))
  }

  predicate InvAt(s: State, k: KPc)
    requires s.g.callUsp.Some?
  {
    Inv(s.g.callUsp.value, s.g, k, DaemonAt(s))
  }

  predicate NobodyInCall(s: State) {
    forall id :: id in s.callers ==> !s.callers[id].pc.InCall?
  }

  /** The protocol runs between the daemon and the one caller in call_usp, if any. */
  predicate ProtocolOk(s: State) {
    if !s.g.configured then Fresh(s.g) && s.daemon == NotStarted
    else
      && s.g.callUsp.Some?
      && (forall id :: id in s.callers && s.callers[id].pc.InCall? ==>
          s.callers[id].pc.k != KOut && InvAt(s, s.callers[id].pc.k))
      && (NobodyInCall(s) ==> InvAt(s, KOut))
  }

  predicate DaemonOk(s: State) {
    s.daemon.Running? ==>
      s.g.configured && s.daemon.job != Faulted && (s.daemon.pc != DServing ==> s.daemon.job == Fetch)
  }

  /** What a caller in call_usp can rely on, by the phase of its call. */
  predicate InCallOk(s: State, c: Caller, phase: Phase)
    requires ValidRequest(c.req)
  {
    && ContainerOf(c.snc, s.heap, c.req)
    && match phase
       case Idle => Same(s.mem, c.entry, c.req)
       case Stored => Same(s.mem, c.entry, c.req) && s.g.actualSnc == c.snc
       case Serving => s.daemon.Running? && s.g.actualSnc == c.snc && JobOk(s.mem, c.entry, c.req, s.daemon.job)
       case Served => s.g.actualSnc == c.snc && Result(s.mem, c.entry, c.req)
  }

  predicate CallerOk(s: State, c: Caller) {
    && ValidRequest(c.req) && Present(s.mem, c.req)
    && match c.pc
       case AtGate => true
       case Packing => Present(c.entry, c.req) && Same(s.mem, c.entry, c.req)
       case InCall(k) => Present(c.entry, c.req) && s.g.callUsp.Some? && InCallOk(s, c, PhaseAt(s, k))
       case Killing => Result(s.mem, c.entry, c.req)
       case Upping => Result(s.mem, c.entry, c.req)
       case Returned => true
       case Crashed => false
  }

  predicate CallersOk(s: State) {
    forall id :: id in s.callers ==> CallerOk(s, s.callers[id])
  }

  predicate Invariant(s: State) {
    GateOk(s) && ProtocolOk(s) && DaemonOk(s) && CallersOk(s)
  }

  lemma InvariantInitially(s: State)
    requires Initial(s)
    ensures Invariant(s)
  {}

  // ----- Frames -----

  /** The protocol variables, and the pid that netlink packets carry. */
  predicate SameProtocol(g: Globals, g': Globals) {
    && g'.pid == g.pid && g'.procFlag == g.procFlag && g'.procMutex == g.procMutex && g'.readMutex == g.readMutex
    && g'.writeMutex == g.writeMutex && g'.ioctlFlag == g.ioctlFlag && g'.initSem == g.initSem
    && g'.ioctlMutex == g.ioctlMutex && g'.callbackSem == g.callbackSem && g'.nlFlag == g.nlFlag
    && g'.nlMutex == g.nlMutex && g'.skbGlobal == g.skbGlobal && g'.queue == g.queue
  }

  lemma InvFrame(t: Transport, g: Globals, g': Globals, k: KPc, d: DPc)
    requires SameProtocol(g, g')
    ensures Inv(t, g, k, d) == Inv(t, g', k, d)
    ensures PhaseOf(t, g, k, d) == PhaseOf(t, g', k, d)
  {}

  lemma OutsideIsIdle(t: Transport, g: Globals, d: DPc)
    ensures PhaseOf(t, g, KOut, d) == Idle
  {}

  lemma ServingPhase(t: Transport, g: Globals, k: KPc)
    requires Inv(t, g, k, DServing)
    ensures PhaseOf(t, g, k, DServing) == Serving
  {}

  /** In what way a statement of call_usp touches the container and the program counter. */
  lemma CallUspEvents(g: Globals, k: KPc, snc: Container)
    requires CallUsp(g, k, snc).KStep?
    ensures var r := CallUsp(g, k, snc);
            && (r.pc == KOut <==> r.e == Return)
            && r.g.actualSnc == (if r.e == Store then snc else g.actualSnc)
            && r.e != Begin && r.e != End
  {}

  lemma DaemonEvents(t: Transport, g: Globals, d: DPc)
    requires Daemon(t, g, d).DStep?
    ensures var r := Daemon(t, g, d);
            r.e != Store && r.e != Return && (d == DServing <==> r.e == End)
  {}

  lemma SameTransitive(m: Memory, m': Memory, m'': Memory, r: Request)
    requires Same(m, m', r) && Same(m', m'', r)
    ensures Same(m, m'', r)
  {}

  /** What a caller relies on survives writes elsewhere. */
  lemma JobOkElsewhere(mem: Memory, mem': Memory, entry: Memory, r: Request, job: Job)
    requires ValidRequest(r) && JobOk(mem, entry, r, job) && Same(mem', mem, r)
    ensures JobOk(mem', entry, r, job)
  {
    hide PBuffer, QBuffer, Data;
  }

  lemma ResultElsewhere(mem: Memory, mem': Memory, entry: Memory, r: Request)
    requires ValidRequest(r) && Result(mem, entry, r) && Same(mem', mem, r)
    ensures Result(mem', entry, r)
  {
    hide PBuffer, QBuffer, Data;
  }

  /** The daemon is where it was, with the same job, or was started. */
  predicate SameDaemon(s: State, s': State)
    requires s.g.callUsp.Some? && s'.g.callUsp == s.g.callUsp
  {
    s'.daemon == s.daemon || (s.daemon == NotStarted && DaemonAt(s') == DaemonAt(s))
  }

  /** A caller's facts depend on little of the state. */
  lemma CallerFrame(s: State, s': State, c: Caller)
    requires CallerOk(s, c) && Present(s'.mem, c.req)
    requires Inside(c.pc) ==> Same(s'.mem, s.mem, c.req)
    requires c.pc.InCall? ==>
               && s'.heap == s.heap && s'.g.actualSnc == s.g.actualSnc
               && s.g.callUsp.Some? && s'.g.callUsp == s.g.callUsp && SameDaemon(s, s') && SameProtocol(s.g, s'.g)
    ensures CallerOk(s', c)
  {
    hide PBuffer, QBuffer, Data, Result, JobOk, Same, Present, ContainerOf, SameProtocol;
    if c.pc.InCall? {
      InvFrame(s.g.callUsp.value, s.g, s'.g, c.pc.k, DaemonAt(s));
      if PhaseAt(s, c.pc.k) == Serving {
        JobOkElsewhere(s.mem, s'.mem, c.entry, c.req, s.daemon.job);
      } else if PhaseAt(s, c.pc.k) == Served {
        ResultElsewhere(s.mem, s'.mem, c.entry, c.req);
      } else {
        SameTransitive(s'.mem, s.mem, c.entry, c.req);
      }
    } else if c.pc.Killing? || c.pc.Upping? {
      ResultElsewhere(s.mem, s'.mem, c.entry, c.req);
    } else if c.pc.Packing? {
      SameTransitive(s'.mem, s.mem, c.entry, c.req);
    }
  }

  lemma SameSelf(mem: Memory, r: Request)
    requires Present(mem, r)
    ensures Same(mem, mem, r)
  {}

  lemma PresentNow(s: State, c: Caller)
    requires CallerOk(s, c)
    ensures ValidRequest(c.req) && Present(s.mem, c.req)
  {}

  /** Nothing that callers rely on has changed. */
  predicate Undisturbed(s: State, s': State) {
    && s'.mem == s.mem && s'.heap == s.heap && s'.g.actualSnc == s.g.actualSnc && s'.g.callUsp == s.g.callUsp
    && (s.g.callUsp.Some? ==> SameDaemon(s, s')) && SameProtocol(s.g, s'.g)
  }

  lemma CallerUndisturbed(s: State, s': State, c: Caller)
    requires CallerOk(s, c) && Undisturbed(s, s')
    ensures CallerOk(s', c)
  {
    hide JobOk, Result, SameProtocol, PhaseOf;
    PresentNow(s, c);
    SameSelf(s.mem, c.req);
    CallerFrame(s, s', c);
  }

  /** A caller outside needs no more than its buffers. */
  lemma OutsideFrame(s: State, s': State, c: Caller)
    requires CallerOk(s, c) && !Inside(c.pc) && SameShape(s.mem, s'.mem)
    ensures CallerOk(s', c)
  {
    hide JobOk, Result, PhaseOf;
  }

  lemma OthersOutside(s: State, id: nat)
    requires GateOk(s) && id in s.callers && Inside(s.callers[id].pc)
    ensures forall k :: k in s.callers && k != id ==> !Inside(s.callers[k].pc)
  {
    hide InsideIds, Inside;
    forall k | k in s.callers && k != id
      ensures !Inside(s.callers[k].pc)
    {
      if Inside(s.callers[k].pc) {
        OneInside(s, id, k);
      }
    }
  }

  /** When caller `id`, who is inside, moves, the others keep what they rely on. */
  lemma OthersFrame(s: State, id: nat, s': State)
    requires GateOk(s) && CallersOk(s) && id in s.callers && Inside(s.callers[id].pc) && SameShape(s.mem, s'.mem)
    requires id in s'.callers && s'.callers == s.callers[id := s'.callers[id]]
    requires CallerOk(s', s'.callers[id])
    ensures CallersOk(s')
  {
    hide CallerOk, GateOk, Inside, SameShape;
    OthersOutside(s, id);
    forall k | k in s.callers && k != id
      ensures CallerOk(s', s.callers[k])
    {
      OutsideFrame(s, s', s.callers[k]);
    }
  }

  // ----- The protocol with nobody, or one caller, in it -----

  lemma ProtocolOfOne(s: State, id: nat)
    requires GateOk(s) && s.g.callUsp.Some? && s.g.configured && id in s.callers && s.callers[id].pc.InCall?
    requires s.callers[id].pc.k != KOut && InvAt(s, s.callers[id].pc.k)
    ensures ProtocolOk(s)
  {
    hide Inv, GateOk;
    OthersOutside(s, id);
    assert !NobodyInCall(s);
  }

  lemma ProtocolOfNone(s: State)
    requires s.g.callUsp.Some? && s.g.configured && NobodyInCall(s) && InvAt(s, KOut)
    ensures ProtocolOk(s)
  {}

  lemma NoneButOne(s: State, id: nat)
    requires GateOk(s) && id in s.callers && Inside(s.callers[id].pc) && !s.callers[id].pc.InCall?
    ensures NobodyInCall(s)
  {
    hide GateOk;
    OthersOutside(s, id);
  }

  /** The protocol invariant depends on the protocol variables and the daemon only. */
  lemma ProtocolFrame(s: State, s': State)
    requires ProtocolOk(s) && s'.g.configured == s.g.configured && s'.g.callUsp == s.g.callUsp
    requires if s.g.configured && s.g.callUsp.Some? then SameDaemon(s, s') else s'.daemon == s.daemon
    requires SameProtocol(s.g, s'.g)
    requires forall id :: id in s'.callers && s'.callers[id].pc.InCall? ==>
             id in s.callers && s'.callers[id].pc == s.callers[id].pc
    requires NobodyInCall(s') ==> NobodyInCall(s)
    ensures ProtocolOk(s')
  {
    hide Inv, PhaseOf;
    if s.g.configured {
      forall k
        ensures InvAt(s, k) == InvAt(s', k)
      {
        InvFrame(s.g.callUsp.value, s.g, s'.g, k, DaemonAt(s));
      }
    }
  }

  // ----- Each step of a caller keeps the invariant -----

  /** Passing the gate: what the caller now has in its buffers is what counts as its data. */
  lemma StepAtGate(s: State, id: nat, s': State)
    requires Invariant(s) && id in s.callers && s.callers[id].pc == AtGate && PassesGate(s, id, s.callers[id], s')
    ensures ProtocolOk(s') && DaemonOk(s') && CallersOk(s')
  {
    hide GateOk, CallerOk;
    ProtocolFrame(s, s') by { hide Inv, PhaseOf, CallersOk; }
    forall k | k in s'.callers
      ensures CallerOk(s', s'.callers[k])
    {
      CallerUndisturbed(s, s', s.callers[k]);
      PassedOk(s', s.callers[k]);
    }
  }

  lemma PassedOk(s: State, c: Caller)
    requires CallerOk(s, c)
    ensures CallerOk(s, c.(pc := Packing, entry := s.mem))
  {
    hide JobOk, Result, PhaseOf;
  }

  lemma StepPacking(s: State, id: nat, block: nat, s': State)
    requires Invariant(s) && GateOk(s') && id in s.callers && s.callers[id].pc == Packing &&
             Packs(s, id, s.callers[id], block, s')
    ensures ProtocolOk(s') && DaemonOk(s') && CallersOk(s')
  {
    hide Inv, PhaseOf, JobOk, Result, GateOk;
    Configured(s, id);
    NoneButOne(s, id);
    InvEnter(s.g.callUsp.value, s.g, DaemonAt(s));
    ProtocolOfOne(s', id);
    OthersFrame(s, id, s');
  }

  lemma Configured(s: State, id: nat)
    requires GateOk(s) && id in s.callers && Inside(s.callers[id].pc)
    ensures s.g.configured && s.g.callUsp.Some? && s.g.pid != 0
  {
    InsideNeedsConfiguration(s, id);
  }

  /** What the caller relies on follows its call through the phases. */
  lemma InCallStep(s: State, c: Caller, phase: Phase, e: Event, s': State, phase': Phase)
    requires ValidRequest(c.req) && InCallOk(s, c, phase) && Cycle(phase, e, phase') && (e == Tau || e == Store)
    requires s'.heap == s.heap && s'.mem == s.mem && s'.daemon == s.daemon
    requires s'.g.actualSnc == if e == Store then c.snc else s.g.actualSnc
    ensures InCallOk(s', c, phase')
  {
    hide ContainerOf, JobOk, Result, Same;
  }

  lemma StepCall(s: State, id: nat, s': State)
    requires Invariant(s) && GateOk(s') && id in s.callers && s.callers[id].pc.InCall?
    requires Calls(s, id, s.callers[id], s.callers[id].pc.k, s')
    ensures ProtocolOk(s') && DaemonOk(s') && CallersOk(s')
  {
    hide Inv, PhaseOf, JobOk, Result, GateOk, CallUsp, Cycle, InCallOk;
    Configured(s, id);
    var c, t, d := s.callers[id], s.g.callUsp.value, DaemonAt(s);
    var k, r := c.pc.k, CallUsp(s.g, c.pc.k, c.snc);
    CallUspKeepsConf(s.g, k, c.snc);
    CallUspEvents(s.g, k, c.snc);
    CallerSimulates(t, s.g, k, d, c.snc);
    if r.e == Return {
      ReturnMeansServed(PhaseOf(t, s.g, k, d), PhaseOf(t, r.g, r.pc, d));
      ServedHasResult(s, c);
      NoneButOne(s', id);
      ProtocolOfNone(s');
    } else {
      InCallStep(s, c, PhaseOf(t, s.g, k, d), r.e, s', PhaseOf(t, r.g, r.pc, d));
      InCallFields(s', c, s'.callers[id], PhaseOf(t, r.g, r.pc, d));
      ProtocolOfOne(s', id);
    }
    OthersFrame(s, id, s');
  }

  lemma ReturnMeansServed(a: Phase, a': Phase)
    requires Cycle(a, Return, a')
    ensures a == Served
  {}

  lemma ServedHasResult(s: State, c: Caller)
    requires ValidRequest(c.req) && InCallOk(s, c, Served)
    ensures Result(s.mem, c.entry, c.req)
  {}

  lemma InCallFields(s: State, c: Caller, c': Caller, phase: Phase)
    requires ValidRequest(c.req) && InCallOk(s, c, phase) && c'.req == c.req && c'.snc == c.snc && c'.entry == c.entry
    ensures InCallOk(s, c', phase)
  {
    hide JobOk, Result;
  }

  lemma StepKilling(s: State, id: nat, s': State)
    requires Invariant(s) && id in s.callers && s.callers[id].pc == Killing && Kills(s, id, s.callers[id], s')
    ensures ProtocolOk(s') && DaemonOk(s') && CallersOk(s')
  {
    hide Inv, PhaseOf, JobOk, Result, GateOk;
    ProtocolFrame(s, s');
    OthersFrame(s, id, s');
  }

  lemma StepLeaving(s: State, id: nat, s': State)
    requires Invariant(s) && id in s.callers && s.callers[id].pc == Upping && Leaves(s, id, s.callers[id], s')
    ensures ProtocolOk(s') && DaemonOk(s') && CallersOk(s')
  {
    hide Inv, PhaseOf, JobOk, Result, GateOk;
    ProtocolFrame(s, s');
    OthersFrame(s, id, s');
  }

  lemma CallerKeeps(s: State, id: nat, block: nat, s': State)
    requires Invariant(s) && CallerMoves(s, id, block, s')
    ensures Invariant(s')
  {
    hide GateOk, ProtocolOk, DaemonOk, CallersOk, PassesGate, Packs, Calls, Kills, Leaves;
    GateCallerStep(s, id, block, s') by { hide CallerMoves; }
    match s.callers[id].pc
    case AtGate => StepAtGate(s, id, s');
    case Packing => StepPacking(s, id, block, s');
    case InCall(_) => StepCall(s, id, s');
    case Killing => StepKilling(s, id, s');
    case Upping => StepLeaving(s, id, s');
    case _ =>
  }
}
