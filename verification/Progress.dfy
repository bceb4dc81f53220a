/** Progress: with a running daemon somebody can always move, and no call outlasts a fixed number of moves. */
module Progress {
  import opened Rendezvous
  import opened System
  import opened Service
  import opened Safety
  import opened CallerSteps
  import opened EndToEnd
  import opened Runs

  /** The caller's place in its transport's call. */
  function PlaceOf(pc: CallerPc): (k: KPc) {
    if pc.InCall? then pc.k else KOut
  }

  function Layer(pc: CallerPc): (layer: nat) {
    match pc
    case Packing => 3
    case InCall(_) => 2
    case Killing => 1
    case _ => 0
  }

  function JobPart(daemon: DaemonState): (part: nat) {
    if daemon.Running? && daemon.pc == DServing then JobLeft(daemon.job) else 0
  }

  /** How far the caller is from returning. */
  function Distance(s: State, c: Caller): (distance: nat)
    requires s.g.callUsp.Some?
  {
    Layer(c.pc) * 7000 + Rank(s.g.callUsp.value, s.g, PlaceOf(c.pc), DaemonAt(s)) * 300 + JobPart(s.daemon)
  }

  /** A move of the call: a step of its caller or of the daemon. */
  predicate IsMove(l: Label, id: nat) {
    l.DaemonStep? || (l.CallerStep? && l.id == id)
  }

  lemma InsideFacts(s: State, id: nat)
    requires Invariant(s) && id in s.callers && Inside(s.callers[id].pc)
    ensures s.g.configured && s.g.callUsp.Some? && InvAt(s, PlaceOf(s.callers[id].pc))
  {
    hide Invariant, Inv, Inside;
    if s.callers[id].pc.InCall? {
      CallInvariant(s, id) by { hide InvAt; }
    } else {
      IdleWhileNobody(s, id) by { hide InvAt; }
    }
  }

  lemma JobBound(mem: Memory, entry: Memory, r: Request, job: Job)
    requires ValidRequest(r) && JobOk(mem, entry, r, job)
    ensures JobLeft(job) <= 260
  {
    hide Present, Same, Data, PBuffer, QBuffer, Result, HasP;
  }

  lemma JobPartBound(s: State)
    requires Invariant(s) && s.g.callUsp.Some?
    ensures JobPart(s.daemon) <= 260
  {
    hide GateOk, CallersOk, ProtocolOk, Inv, PhaseOf, JobOk;
    if s.daemon.Running? && s.daemon.pc == DServing {
      var id := ServingSomeone(s);
      SomeoneOk(s, id);
      ServedCaller(s, s.callers[id]);
      JobBound(s.mem, s.callers[id].entry, s.callers[id].req, s.daemon.job);
    }
  }

  lemma SomeoneOk(s: State, id: nat)
    requires CallersOk(s) && id in s.callers
    ensures CallerOk(s, s.callers[id])
  {
    hide CallerOk;
  }

  lemma DistanceBound(s: State, id: nat)
    requires Invariant(s) && id in s.callers && Inside(s.callers[id].pc)
    ensures s.g.callUsp.Some? && Distance(s, s.callers[id]) <= Layer(s.callers[id].pc) * 7000 + 6260
  {
    hide Invariant, Inv, Inside, Rank, Layer, JobPart;
    InsideFacts(s, id);
    JobPartBound(s);
    EveryStepCounts(s.g.callUsp.value, s.g, PlaceOf(s.callers[id].pc), DaemonAt(s), s.callers[id].snc);
  }

  lemma TalkCloser(s: State, s': State, id: nat)
    requires Invariant(s) && id in s.callers && Inside(s.callers[id].pc) && Talks(s, s')
    ensures s'.g.callUsp.Some? && s'.callers == s.callers && Distance(s', s.callers[id]) < Distance(s, s.callers[id])
  {
    hide Invariant, Inv, Inside, Daemon, Rank, Layer;
    InsideFacts(s, id);
    var t, d, c := s.g.callUsp.value, s.daemon.pc, s.callers[id];
    DaemonKeepsConf(t, s.g, d);
    EveryStepCounts(t, s.g, PlaceOf(c.pc), d, c.snc);
    assert JobPart(s'.daemon) <= 260;
  }

  lemma ServeCloser(s: State, s': State, id: nat)
    requires Invariant(s) && id in s.callers && Inside(s.callers[id].pc) && Serves(s, s')
    ensures s'.g == s.g && s'.callers == s.callers && Distance(s', s.callers[id]) < Distance(s, s.callers[id])
  {
    hide GateOk, CallersOk, ProtocolOk, Inv, PhaseOf, JobOk, Inside, Rank, Layer, Serve, JobLeft;
    var other := ServingSomeone(s);
    SomeoneOk(s, other);
    var c := s.callers[other];
    ServedCaller(s, c);
    ServeProgress(s.copy, s.g, s.heap, s.mem, s.daemon.job, c.entry, c.req);
  }

  lemma CallCloser(s: State, s': State, id: nat)
    requires Invariant(s) && id in s.callers && s.callers[id].pc.InCall? &&
             Calls(s, id, s.callers[id], s.callers[id].pc.k, s')
    requires Invariant(s') && id in s'.callers && Inside(s'.callers[id].pc)
    ensures s'.g.callUsp.Some? && s.g.callUsp.Some? && Distance(s', s'.callers[id]) < Distance(s, s.callers[id])
  {
    hide Invariant, Inv, Inside, CallUsp, Rank, JobPart;
    assert Inside(s.callers[id].pc) by { CallInside(s.callers[id].pc); }
    InsideFacts(s, id);
    var c := s.callers[id];
    CallUspKeepsConf(s.g, c.pc.k, c.snc);
    EveryStepCounts(s.g.callUsp.value, s.g, c.pc.k, DaemonAt(s), c.snc);
    if s'.callers[id].pc.Killing? {
      DistanceBound(s', id);
    }
  }

  lemma CallInside(pc: CallerPc)
    requires pc.InCall?
    ensures Inside(pc)
  {}

  lemma LayerCloser(s: State, s': State, id: nat)
    requires Invariant(s) && id in s.callers && Inside(s.callers[id].pc)
    requires Invariant(s') && id in s'.callers && Inside(s'.callers[id].pc)
    requires Layer(s'.callers[id].pc) < Layer(s.callers[id].pc) && s.g.callUsp.Some?
    ensures s'.g.callUsp.Some? && Distance(s', s'.callers[id]) < Distance(s, s.callers[id])
  {
    hide Invariant, Inside, Rank, JobPart, Layer;
    DistanceBound(s', id);
  }

  lemma OwnCloser(s: State, id: nat, block: nat, s': State)
    requires Invariant(s) && Invariant(s') && CallerMoves(s, id, block, s') && Inside(s.callers[id].pc)
    requires id in s'.callers && Inside(s'.callers[id].pc) && s.g.callUsp.Some?
    ensures s'.g.callUsp.Some? && Distance(s', s'.callers[id]) < Distance(s, s.callers[id])
  {
    hide Invariant, Calls, Distance;
    if s.callers[id].pc.InCall? {
      CallCloser(s, s', id);
    } else {
      LayerCloser(s, s', id);
    }
  }

  lemma RankFrame(t: Transport, g: Globals, g': Globals, k: KPc, d: DPc)
    requires SameProtocol(g, g')
    ensures Rank(t, g, k, d) == Rank(t, g', k, d)
  {
    hide SameProtocol, PhaseOf;
    InvFrame(t, g, g', k, d);
  }

  lemma NoCloser(s: State, s': State, c: Caller)
    requires s.g.callUsp.Some? && s'.g.callUsp == s.g.callUsp && SameProtocol(s.g, s'.g)
    requires s'.daemon == s.daemon || (s.daemon == NotStarted &&
             s'.daemon == Running(DaemonEntry(s.g.callUsp.value), Fetch))
    ensures Distance(s', c) == Distance(s, c)
  {
    hide Rank, SameProtocol;
    RankFrame(s.g.callUsp.value, s.g, s'.g, PlaceOf(c.pc), DaemonAt(s));
  }

  lemma OthersNoCloser(s: State, l: Label, s': State, id: nat)
    requires Invariant(s) && Step(s, l, s') && !IsMove(l, id) && id in s.callers && Inside(s.callers[id].pc)
    ensures s'.g.callUsp.Some? && s.g.callUsp.Some? && id in s'.callers &&
            Distance(s', s.callers[id]) == Distance(s, s.callers[id])
  {
    hide GateOk, ProtocolOk, DaemonOk, CallersOk, Inside, Distance, CallerMoves, DaemonMoves, ConfWrite;
    Configured(s, id);
    match l
    case CallerStep(other, block) => OthersWait(s, id, other, block, s');
    case WriterStep(w) =>
      WriterIsOk(s, w);
      ConfWriteFrame(s.g, s.writers[w]);
      NoCloser(s, s', s.callers[id]);
    case DaemonStep =>
    case _ => NoCloser(s, s', s.callers[id]);
  }

  /** No step of anyone takes a caller farther from its return; its own steps and the daemon's bring it nearer. */
  lemma EveryMoveCounts(s: State, l: Label, s': State, id: nat)
    requires Invariant(s) && Step(s, l, s') && id in s.callers && Inside(s.callers[id].pc)
    requires id in s'.callers && Inside(s'.callers[id].pc)
    ensures s.g.callUsp.Some? && s'.g.callUsp.Some?
    ensures Distance(s', s'.callers[id]) + (if IsMove(l, id) then 1 else 0) <= Distance(s, s.callers[id])
  {
    hide Inside, Distance, Invariant, CallerMoves, Serves, Talks;
    Configured(s, id) by { OpenInvariant(s); }
    InvariantStep(s, l, s') by { hide Step; }
    match l
    case DaemonStep =>
      if Talks(s, s') {
        TalkCloser(s, s', id);
      } else {
        ServeCloser(s, s', id);
      }
    case CallerStep(other, block) =>
      if other == id {
        OwnCloser(s, id, block, s');
      } else {
        OthersNoCloser(s, l, s', id) by { hide Step; }
        CallerStays(s, l, s', id) by { hide Step; }
      }
    case _ =>
      OthersNoCloser(s, l, s', id) by { hide Step; }
      CallerStays(s, l, s', id) by { hide Step; }
  }

  lemma CallerStays(s: State, l: Label, s': State, id: nat)
    requires Step(s, l, s') && id in s.callers && id in s'.callers && !IsMove(l, id)
    ensures s'.callers[id] == s.callers[id]
  {
    hide Step;
    if s'.callers[id] != s.callers[id] {
      OwnMove(s, l, s', id);
    }
  }

  lemma OpenInvariant(s: State)
    requires Invariant(s)
    ensures GateOk(s) && ProtocolOk(s) && DaemonOk(s) && CallersOk(s)
  {}

  // ----- Somebody can move -----

  lemma {:induction false} Unallocated(blocks: set<nat>) returns (block: nat)
    ensures forall b :: b in blocks ==> b < block
  {
    if blocks == {} {
      block := 0;
    } else {
      var b :| b in blocks;
      var rest := Unallocated(blocks - {b});
      block := if b < rest then rest else b + 1;
      assert forall other :: other in blocks ==> other == b || other in blocks - {b};
    }
  }

  /** While a caller is inside and the daemon runs, one of the two has an enabled step. */
  lemma SomeMoveEnabled(s: State, id: nat) returns (l: Label, s': State)
    requires Invariant(s) && id in s.callers && Inside(s.callers[id].pc) && s.daemon.Running?
    ensures IsMove(l, id) && Step(s, l, s')
  {
    hide Invariant, Inv, CallUsp, Daemon, Serve;
    InsideFacts(s, id);
    var c := s.callers[id];
    if c.pc.InCall? {
      var t := s.g.callUsp.value;
      CallInvariant(s, id);
      SomeoneMoves(t, s.g, c.pc.k, s.daemon.pc, c.snc);
      var r := CallUsp(s.g, c.pc.k, c.snc);
      if r.KStep? {
        l := CallerStep(id, 0);
        s' := s.(g := r.g, callers := s.callers[id := c.(pc := if r.e == Return then Killing else InCall(r.pc))]);
      } else {
        l := DaemonStep;
        s' := DaemonCan(s);
      }
    } else {
      var block := Unallocated(s.heap.Keys);
      l := CallerStep(id, block);
      s' := OutsideCan(s, id, block);
    }
  }

  lemma DaemonCan(s: State) returns (s': State)
    requires s.daemon.Running? && s.g.callUsp.Some? && Daemon(s.g.callUsp.value, s.g, s.daemon.pc).DStep?
    ensures DaemonMoves(s, s')
  {
    hide Daemon, Serve;
    if s.daemon.pc == DServing && s.daemon.job != Finished {
      var r := Serve(s.copy, s.g, s.heap, s.mem, s.daemon.job);
      s' := s.(mem := r.mem, daemon := Running(DServing, r.job));
    } else {
      var r := Daemon(s.g.callUsp.value, s.g, s.daemon.pc);
      s' := s.(g := r.g, daemon := Running(r.pc, Fetch));
    }
  }

  lemma OutsideCan(s: State, id: nat, block: nat) returns (s': State)
    requires Invariant(s) && id in s.callers && Inside(s.callers[id].pc) && !s.callers[id].pc.InCall?
    requires s.g.callUsp.Some? && block !in s.heap
    ensures CallerMoves(s, id, block, s')
  {
    hide GateOk, ProtocolOk, DaemonOk;
    var c := s.callers[id];
    assert CallerOk(s, c);
    match c.pc
    case Packing =>
      s' := s.(heap := s.heap[block := c.req.ptrs],
               callers := s.callers[id := c.(snc := Container(c.req.disks, c.req.bytes, block),
                   pc := InCall(Entry(s.g.callUsp.value)))]);
    case Killing => s' := s.(heap := s.heap - {c.snc.ptrs}, callers := s.callers[id := c.(pc := Upping)]);
    case Upping => s' := s.(g := s.g.(gate := s.g.gate + 1), callers := s.callers[id := c.(pc := Returned)]);
    case _ =>
  }

  /** The moves of the call of `id` among the steps i to j - 1. */
  function Moves(r: Run, id: nat, i: nat, j: nat): (count: nat)
    requires i <= j <= |r.labels|
  {
    if i == j then 0 else Moves(r, id, i, j - 1) + if IsMove(r.labels[j - 1], id) then 1 else 0
  }

  /** The steps from i to j - 1 at which the call moves. */
  function MoveSteps(r: Run, id: nat, i: nat, j: nat): (steps: set<nat>)
    requires i <= j <= |r.labels|
  {
    set m: nat | i <= m < j && IsMove(r.labels[m], id)
  }

  /** That is how many there are. */
  lemma {:induction false} MovesExact(r: Run, id: nat, i: nat, j: nat)
    requires i <= j <= |r.labels|
    ensures Moves(r, id, i, j) == |MoveSteps(r, id, i, j)|
  {
    if i < j {
      MovesExact(r, id, i, j - 1);
      var before := MoveSteps(r, id, i, j - 1);
      assert MoveSteps(r, id, i, j) == if IsMove(r.labels[j - 1], id) then before + {j - 1} else before;
    } else {
      assert MoveSteps(r, id, i, j) == {};
    }
  }

  lemma {:induction false} MovesBound(r: Run, id: nat, i: nat, j: nat)
    requires IsRun(r) && i <= j < |r.states|
    requires forall m :: i <= m <= j ==> id in r.states[m].callers && Inside(r.states[m].callers[id].pc)
    ensures r.states[i].g.callUsp.Some? && r.states[j].g.callUsp.Some?
    ensures Moves(r, id, i, j) + Distance(r.states[j], r.states[j].callers[id]) <= Distance(r.states[i],
            r.states[i].callers[id])
  {
    hide Inside, Distance, Invariant, Step, IsMove;
    Always(r, j);
    DistanceBound(r.states[j], id);
    if i < j {
      MovesBound(r, id, i, j - 1);
      Always(r, j - 1);
      assert Step(r.states[j - 1], r.labels[j - 1], r.states[j]);
      EveryMoveCounts(r.states[j - 1], r.labels[j - 1], r.states[j], id);
    }
  }

  /** Under every schedule, whatever anyone else does, a caller that passed the gate returns before the caller and
      the daemon have made 27261 moves: as long as it is inside, they have made fewer. */
  lemma BoundedCall(r: Run, id: nat, i: nat, j: nat)
    requires IsRun(r) && i <= j < |r.states|
    requires forall m :: i <= m <= j ==> id in r.states[m].callers && Inside(r.states[m].callers[id].pc)
    ensures |MoveSteps(r, id, i, j)| <= 27260
  {
    hide Inside, Distance, Invariant, Step, Initial, MoveSteps, Moves;
    MovesExact(r, id, i, j);
    MovesBound(r, id, i, j);
    Always(r, i);
    DistanceBound(r.states[i], id);
  }
}
