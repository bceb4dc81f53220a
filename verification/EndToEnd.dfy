/** Every step of the connector keeps its invariant; hence what every run guarantees to every caller. */
module EndToEnd {
  import opened Rendezvous
  import opened System
  import opened Service
  import opened Safety
  import opened CallerSteps

  // ----- The daemon -----

  lemma ServingSomeone(s: State) returns (id: nat)
    requires ProtocolOk(s) && DaemonOk(s) && s.daemon.Running? && s.daemon.pc == DServing && s.g.callUsp.Some?
    ensures id in s.callers && s.callers[id].pc.InCall?
    ensures InvAt(s, s.callers[id].pc.k) && PhaseAt(s, s.callers[id].pc.k) == Serving
  {
    hide Inv, PhaseOf;
    var t := s.g.callUsp.value;
    if NobodyInCall(s) {
      ServingPhase(t, s.g, KOut);
      OutsideIsIdle(t, s.g, DServing);
      assert false;
    }
    id :| id in s.callers && s.callers[id].pc.InCall?;
    ServingPhase(t, s.g, s.callers[id].pc.k);
  }

  lemma ServedCaller(s: State, c: Caller)
    requires CallerOk(s, c) && c.pc.InCall? && s.g.callUsp.Some? && PhaseAt(s, c.pc.k) == Serving
    ensures ValidRequest(c.req) && Present(s.mem, c.req) && Present(c.entry, c.req) && s.daemon.Running?
    ensures s.g.actualSnc == c.snc && ContainerOf(c.snc, s.heap, c.req) && JobOk(s.mem, c.entry, c.req, s.daemon.job)
  {
    hide JobOk, PhaseOf;
  }

  lemma StillServed(s: State, c: Caller, s': State)
    requires CallerOk(s, c) && c.pc.InCall? && s.g.callUsp.Some? && PhaseAt(s, c.pc.k) == Serving
    requires s'.heap == s.heap && s'.g == s.g && s'.daemon.Running? && s'.daemon.pc == DServing == s.daemon.pc
    requires JobOk(s'.mem, c.entry, c.req, s'.daemon.job) && SameShape(s.mem, s'.mem)
    ensures CallerOk(s', c)
  {
    hide JobOk, PhaseOf;
  }

  lemma StepServes(s: State, s': State)
    requires Invariant(s) && Serves(s, s')
    ensures ProtocolOk(s') && DaemonOk(s') && CallersOk(s')
  {
    hide GateOk, CallerOk, Serve, JobOk, ContainerOf, Inv, PhaseOf, SameShape;
    var id := ServingSomeone(s);
    var c := s.callers[id];
    ServedCaller(s, c);
    ServeStep(s.copy, s.g, s.heap, s.mem, s.daemon.job, c.entry, c.req);
    StillServed(s, c, s');
    OthersFrame(s, id, s');
  }

  /** What a caller relies on follows the daemon through the phases. */
  lemma InTalkStep(s: State, c: Caller, phase: Phase, e: Event, s': State, phase': Phase)
    requires ValidRequest(c.req) && Present(s.mem, c.req) && Present(c.entry, c.req)
    requires InCallOk(s, c, phase) && Cycle(phase, e, phase') && (e == Tau || e == Begin || e == End)
    requires s'.heap == s.heap && s'.mem == s.mem && s'.g.actualSnc == s.g.actualSnc
    requires s.daemon.Running? && s'.daemon.Running? && s'.daemon.job == Fetch
    requires s.daemon.job == if e == End then Finished else Fetch
    ensures InCallOk(s', c, phase')
  {
    hide ContainerOf, Result, Same;
  }

  lemma StepTalks(s: State, s': State)
    requires Invariant(s) && GateOk(s') && Talks(s, s')
    ensures ProtocolOk(s') && DaemonOk(s') && CallersOk(s')
  {
    hide GateOk, CallerOk, JobOk, ContainerOf, Inv, PhaseOf, Daemon, Cycle, InCallOk;
    var t, d := s.g.callUsp.value, s.daemon.pc;
    var r := Daemon(t, s.g, d);
    DaemonKeepsConf(t, s.g, d);
    DaemonEvents(t, s.g, d);
    if NobodyInCall(s) {
      DaemonSimulates(t, s.g, KOut, d);
      ProtocolOfNone(s');
      forall k | k in s.callers
        ensures CallerOk(s', s.callers[k])
      {
        NotInCallFrame(s, s', s.callers[k]);
      }
    } else {
      var id :| id in s.callers && s.callers[id].pc.InCall?;
      var c := s.callers[id];
      DaemonSimulates(t, s.g, c.pc.k, d);
      InCallFacts(s, c);
      InTalkStep(s, c, PhaseOf(t, s.g, c.pc.k, d), r.e, s', PhaseOf(t, r.g, c.pc.k, r.pc));
      InCallMade(s', c);
      ProtocolOfOne(s', id);
      OthersFrame(s, id, s') by { SameShapeSelf(s.mem); }
    }
  }

  lemma NotInCallFrame(s: State, s': State, c: Caller)
    requires CallerOk(s, c) && !c.pc.InCall? && s'.mem == s.mem
    ensures CallerOk(s', c)
  {
    hide JobOk, Result, PhaseOf;
  }

  lemma InCallFacts(s: State, c: Caller)
    requires CallerOk(s, c) && c.pc.InCall? && s.g.callUsp.Some?
    ensures ValidRequest(c.req) && Present(s.mem, c.req) && Present(c.entry, c.req) &&
            InCallOk(s, c, PhaseAt(s, c.pc.k))
  {
    hide InCallOk, PhaseOf;
  }

  lemma InCallMade(s: State, c: Caller)
    requires c.pc.InCall? && s.g.callUsp.Some? && ValidRequest(c.req) && Present(s.mem, c.req) &&
             Present(c.entry, c.req)
    requires InCallOk(s, c, PhaseAt(s, c.pc.k))
    ensures CallerOk(s, c)
  {
    hide InCallOk, PhaseOf;
  }

  lemma StepDaemonStart(s: State, s': State)
    requires Invariant(s) && Step(s, DaemonStart, s')
    ensures ProtocolOk(s') && DaemonOk(s') && CallersOk(s')
  {
    hide GateOk, CallerOk, Inv, PhaseOf;
    ProtocolFrame(s, s');
    AllUndisturbed(s, s');
  }

  lemma AllUndisturbed(s: State, s': State)
    requires CallersOk(s) && Undisturbed(s, s') && s'.callers == s.callers
    ensures CallersOk(s')
  {
    hide CallerOk, Undisturbed;
    forall k | k in s.callers
      ensures CallerOk(s', s.callers[k])
    {
      CallerUndisturbed(s, s', s.callers[k]);
    }
  }

  // ----- The configuration -----

  /** conf_write touches no protocol variable, and once configured it changes nothing but the semaphores. */
  lemma ConfWriteFrame(g: Globals, w: Writer)
    requires ConfWrite(g, w).WStep? && WriterOk(g, w)
    ensures var r := ConfWrite(g, w);
            && SameProtocol(g, r.g.(pid := g.pid)) && r.g.actualSnc == g.actualSnc
            && (g.configured ==> r.g.configured && r.g.callUsp == g.callUsp && r.g.pid == g.pid)
            && (!g.configured && r.g.configured ==> r.g.callUsp.Some?)
  {}

  lemma FreshFrame(g: Globals, g': Globals)
    requires Fresh(g) && SameProtocol(g, g'.(pid := g.pid))
    ensures Fresh(g')
  {}

  lemma NobodyInside(s: State)
    requires GateOk(s) && !s.g.configured
    ensures forall k :: k in s.callers ==> !Inside(s.callers[k].pc)
  {
    forall k | k in s.callers
      ensures !Inside(s.callers[k].pc)
    {
      if Inside(s.callers[k].pc) {
        InsideNeedsConfiguration(s, k);
      }
    }
  }

  lemma StepWriter(s: State, id: nat, s': State)
    requires Invariant(s) && WriterMoves(s, id, s')
    ensures ProtocolOk(s') && DaemonOk(s') && CallersOk(s')
  {
    hide GateOk, CallerOk, Inv, PhaseOf, ConfWrite, WriterOk, SameShape, Fresh;
    WriterIsOk(s, id);
    ConfWriteFrame(s.g, s.writers[id]);
    if s.g.configured {
      ProtocolFrame(s, s');
      AllUndisturbed(s, s');
    } else {
      NobodyInside(s);
      FreshFrame(s.g, s'.g);
      if s'.g.configured {
        InvInitially(s'.g.callUsp.value, s'.g);
        ProtocolOfNone(s');
      }
      SameShapeSelf(s.mem);
      forall k | k in s.callers
        ensures CallerOk(s', s.callers[k])
      {
        OutsideFrame(s, s', s.callers[k]);
      }
    }
  }

  lemma WriterIsOk(s: State, id: nat)
    requires GateOk(s) && id in s.writers
    ensures WriterOk(s.g, s.writers[id])
  {}

  // ----- Arrivals and the rest of the machine -----

  lemma StepArrive(s: State, id: nat, req: Request, s': State)
    requires Invariant(s) && Step(s, Arrive(id, req), s')
    ensures ProtocolOk(s') && DaemonOk(s') && CallersOk(s')
  {
    hide GateOk, CallerOk, Inv, PhaseOf;
    ProtocolFrame(s, s');
    forall k | k in s'.callers
      ensures CallerOk(s', s'.callers[k])
    {
      if k == id {
        ArrivedOk(s', s'.callers[id]);
      } else {
        CallerUndisturbed(s, s', s.callers[k]);
      }
    }
  }

  lemma ArrivedOk(s: State, c: Caller)
    requires ValidRequest(c.req) && Present(s.mem, c.req) && c.pc == AtGate
    ensures CallerOk(s, c)
  {}

  lemma StepElsewhere(s: State, mem: Memory, s': State)
    requires Invariant(s) && ElsewhereMoves(s, mem, s')
    ensures ProtocolOk(s') && DaemonOk(s') && CallersOk(s')
  {
    hide GateOk, CallerOk, Inv, PhaseOf, ValidRequest, Same, Present;
    ProtocolFrame(s, s');
    forall k | k in s'.callers
      ensures CallerOk(s', s'.callers[k])
    {
      PresentNow(s, s.callers[k]);
      PresentShape(s.mem, s'.mem, s.callers[k].req);
      if s.callers[k].pc.InCall? {
        Configured(s, k);
      }
      CallerFrame(s, s', s.callers[k]);
    }
  }

  lemma StepWriterArrive(s: State, id: nat, cmd: Command, s': State)
    requires Invariant(s) && Step(s, WriterArrive(id, cmd), s')
    ensures ProtocolOk(s') && DaemonOk(s') && CallersOk(s')
  {
    hide GateOk, CallerOk, Inv, PhaseOf;
    ProtocolFrame(s, s');
    AllUndisturbed(s, s');
  }

  /** Every step of the connector keeps the invariant. */
  lemma InvariantStep(s: State, l: Label, s': State)
    requires Invariant(s) && Step(s, l, s')
    ensures Invariant(s')
  {
    hide GateOk, ProtocolOk, DaemonOk, CallersOk, CallerMoves, WriterMoves, Serves, Talks, ElsewhereMoves;
    GateStep(s, l, s');
    match l
    case Arrive(id, req) => StepArrive(s, id, req, s');
    case CallerStep(id, block) => CallerKeeps(s, id, block, s');
    case DaemonStart => StepDaemonStart(s, s');
    case DaemonStep => if Serves(s, s') { StepServes(s, s'); } else { StepTalks(s, s'); }
    case WriterArrive(id, cmd) => StepWriterArrive(s, id, cmd, s');
    case WriterStep(id) => StepWriter(s, id, s');
    case Elsewhere(mem) => StepElsewhere(s, mem, s');
  }
}
