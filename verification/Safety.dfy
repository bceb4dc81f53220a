/** Invariants of the whole connector, over every run, and the end-to-end result. */
module Safety {
  import opened Rendezvous
  import opened System

  // ----- The gate and the configuration -----

  function InsideIds(callers: map<nat, Caller>): (ids: set<nat>) {
    set id | id in callers && Inside(callers[id].pc)
  }

  function GateUppers(writers: map<nat, Writer>): (ids: set<nat>) {
    set id | id in writers && writers[id].UppingGate?
  }

  predicate HoldsConf(w: Writer) {
    w.Checking? || w.SettingUsp? || w.SettingConfigured? || w.UppingGate? || w.UppingConf? || w.LeftHolding?
  }

  function ConfHolders(writers: map<nat, Writer>): (ids: set<nat>) {
    set id | id in writers && HoldsConf(writers[id])
  }

  /** gen_syndrome_mutex: its count, the callers inside, and the one unit withheld until the configuration is done. */
  predicate GateLaw(s: State) {
    s.g.gate + |InsideIds(s.callers)| + |GateUppers(s.writers)| + (if s.g.configured then 0 else 1) == 1
  }

  predicate ConfLaw(s: State) {
    s.g.confMutex + |ConfHolders(s.writers)| == 1
  }

  predicate WriterOk(g: Globals, w: Writer) {
    && (w.SettingUsp? || w.SettingConfigured? ==> !g.configured && g.pid != 0)
    && (w.SettingConfigured? ==> g.callUsp.Some?)
    && (w.UppingGate? ==> g.configured)
  }

  predicate WritersOk(s: State) {
    && (s.g.configured ==> s.g.callUsp.Some? && s.g.pid != 0)
    && forall id :: id in s.writers ==> WriterOk(s.g, s.writers[id])
  }

  predicate GateOk(s: State) {
    GateLaw(s) && ConfLaw(s) && WritersOk(s)
  }

  lemma InsideUpdate(callers: map<nat, Caller>, id: nat, c: Caller)
    ensures |InsideIds(callers[id := c])| - (if Inside(c.pc) then 1 else 0)
         == |InsideIds(callers)| - (if id in callers && Inside(callers[id].pc) then 1 else 0)
  {
    var before := InsideIds(callers) - {id};
    assert InsideIds(callers) == if id in callers && Inside(callers[id].pc) then before + {id} else before;
    assert InsideIds(callers[id := c]) == if Inside(c.pc) then before + {id} else before;
  }

  lemma UppersUpdate(writers: map<nat, Writer>, id: nat, w: Writer)
    ensures |GateUppers(writers[id := w])| - (if w.UppingGate? then 1 else 0)
         == |GateUppers(writers)| - (if id in writers && writers[id].UppingGate? then 1 else 0)
  {
    var before := GateUppers(writers) - {id};
    assert GateUppers(writers) == if id in writers && writers[id].UppingGate? then before + {id} else before;
    assert GateUppers(writers[id := w]) == if w.UppingGate? then before + {id} else before;
  }

  lemma HoldersUpdate(writers: map<nat, Writer>, id: nat, w: Writer)
    ensures |ConfHolders(writers[id := w])| - (if HoldsConf(w) then 1 else 0)
         == |ConfHolders(writers)| - (if id in writers && HoldsConf(writers[id]) then 1 else 0)
  {
    var before := ConfHolders(writers) - {id};
    assert ConfHolders(writers) == if id in writers && HoldsConf(writers[id]) then before + {id} else before;
    assert ConfHolders(writers[id := w]) == if HoldsConf(w) then before + {id} else before;
  }

  lemma AtMostOneElement(s: set<nat>, a: nat, b: nat)
    requires |s| <= 1 && a in s && b in s
    ensures a == b
  {
    if a != b {
      assert {a, b} <= s;
      SubsetSize({a, b}, s);
    }
  }

  lemma {:induction false} SubsetSize(a: set<nat>, b: set<nat>)
    requires a <= b
    ensures |a| <= |b|
  {
    if a != {} {
      var x :| x in a;
      SubsetSize(a - {x}, b - {x});
    }
  }

  /** Mutual exclusion: two callers are never inside together. */
  lemma OneInside(s: State, a: nat, b: nat)
    requires GateLaw(s) && a in s.callers && b in s.callers && Inside(s.callers[a].pc) && Inside(s.callers[b].pc)
    ensures a == b
  {
    AtMostOneElement(InsideIds(s.callers), a, b);
  }

  lemma OneConfHolder(s: State, a: nat, b: nat)
    requires ConfLaw(s) && a in s.writers && b in s.writers && HoldsConf(s.writers[a]) && HoldsConf(s.writers[b])
    ensures a == b
  {
    AtMostOneElement(ConfHolders(s.writers), a, b);
  }

  /** Nobody is inside before the configuration is done. */
  lemma InsideNeedsConfiguration(s: State, id: nat)
    requires GateLaw(s) && id in s.callers && Inside(s.callers[id].pc)
    ensures s.g.configured
  {
    assert id in InsideIds(s.callers);
    SubsetSize({id}, InsideIds(s.callers));
  }

  /** The fields that the protocols do not touch. */
  predicate SameConf(g: Globals, g': Globals) {
    g'.gate == g.gate && g'.confMutex == g.confMutex && g'.pid == g.pid && g'.configured == g.configured &&
        g'.callUsp == g.callUsp
  }

  lemma CallUspKeepsConf(g: Globals, k: KPc, snc: Container)
    ensures CallUsp(g, k, snc).KStep? ==> SameConf(g, CallUsp(g, k, snc).g)
  {}

  lemma DaemonKeepsConf(t: Transport, g: Globals, d: DPc)
    ensures Daemon(t, g, d).DStep? ==> SameConf(g, Daemon(t, g, d).g) && Daemon(t, g, d).g.actualSnc == g.actualSnc
  {}

  lemma CallGate(s: State, id: nat, s': State)
    requires id in s.callers && s.callers[id].pc.InCall? && Calls(s, id, s.callers[id], s.callers[id].pc.k, s')
    ensures s'.callers == s.callers[id := s'.callers[id]] && s'.writers == s.writers && SameConf(s.g, s'.g)
    ensures Inside(s'.callers[id].pc)
  {
    hide CallUsp;
    CallUspKeepsConf(s.g, s.callers[id].pc.k, s.callers[id].snc);
  }

  /** What a caller's step does to the gate. */
  lemma CallerGate(s: State, id: nat, block: nat, s': State)
    requires CallerMoves(s, id, block, s')
    ensures s'.callers == s.callers[id := s'.callers[id]] && s'.writers == s.writers
    ensures SameConf(s.g, s'.g.(gate := s.g.gate))
    ensures s'.g.gate + (if Inside(s'.callers[id].pc) then 1 else 0)
            == s.g.gate + (if Inside(s.callers[id].pc) then 1 else 0)
  {
    hide Calls;
    if s.callers[id].pc.InCall? {
      CallGate(s, id, s');
    }
  }

  /** The steps of the callers keep the laws. */
  lemma GateCallerStep(s: State, id: nat, block: nat, s': State)
    requires GateOk(s) && CallerMoves(s, id, block, s')
    ensures GateOk(s')
  {
    hide CallerMoves, InsideIds, GateUppers, ConfHolders;
    CallerGate(s, id, block, s');
    InsideUpdate(s.callers, id, s'.callers[id]);
    CallerKnown(s, id, block, s');
  }

  lemma CallerKnown(s: State, id: nat, block: nat, s': State)
    requires CallerMoves(s, id, block, s')
    ensures id in s.callers
  {}

  /** What a writer's step does to the two semaphores. */
  lemma WriterGate(g: Globals, w: Writer)
    requires WriterOk(g, w) && ConfWrite(g, w).WStep?
    ensures var r := ConfWrite(g, w);
            && r.g.gate + (if r.w.UppingGate? then 1 else 0) + (if r.g.configured then 0 else 1)
            == g.gate + (if w.UppingGate? then 1 else 0) + (if g.configured then 0 else 1)
            && r.g.confMutex + (if HoldsConf(r.w) then 1 else 0) == g.confMutex + (if HoldsConf(w) then 1 else 0)
  {}

  lemma WriterNext(g: Globals, w: Writer)
    requires WriterOk(g, w) && ConfWrite(g, w).WStep?
    ensures WriterOk(ConfWrite(g, w).g, ConfWrite(g, w).w)
  {}

  /** A writer's step, for itself and for those that do not hold conf_mutex. */
  lemma WriterSelf(g: Globals, w: Writer, other: Writer)
    requires WriterOk(g, w) && ConfWrite(g, w).WStep? && (g.configured ==> g.callUsp.Some? && g.pid != 0)
    requires HoldsConf(w) ==> !HoldsConf(other)
    ensures var r := ConfWrite(g, w);
            && WriterOk(r.g, r.w) && (r.g.configured ==> r.g.callUsp.Some? && r.g.pid != 0)
            && (WriterOk(g, other) ==> WriterOk(r.g, other))
  {}

  lemma WritersStep(s: State, id: nat, s': State)
    requires WritersOk(s) && WriterMoves(s, id, s')
    requires forall other :: other in s.writers && other != id && HoldsConf(s.writers[other]) ==>
             !HoldsConf(s.writers[id])
    ensures WritersOk(s')
  {
    hide WriterOk, HoldsConf, ConfWrite;
    WriterSelf(s.g, s.writers[id], AtConf(Other)) by { NoHolder(Other); }
    forall other | other in s.writers && other != id
      ensures WriterOk(s'.g, s.writers[other])
    {
      WriterSelf(s.g, s.writers[id], s.writers[other]);
    }
  }

  lemma NoHolder(cmd: Command)
    ensures !HoldsConf(AtConf(cmd))
  {}

  /** The steps of the configuration writers keep the laws: the gate is opened once, after a pid and a transport. */
  lemma GateWriterStep(s: State, id: nat, s': State)
    requires GateOk(s) && WriterMoves(s, id, s')
    ensures GateOk(s')
  {
    hide InsideIds, GateUppers, ConfHolders, WriterOk, ConfWrite, HoldsConf;
    forall other | other in s.writers && other != id && HoldsConf(s.writers[other])
      ensures !HoldsConf(s.writers[id])
    {
      if HoldsConf(s.writers[id]) {
        OneConfHolder(s, id, other);
      }
    }
    WritersStep(s, id, s');
    WriterGate(s.g, s.writers[id]);
    UppersUpdate(s.writers, id, s'.writers[id]);
    HoldersUpdate(s.writers, id, s'.writers[id]);
  }

  lemma GateStep(s: State, l: Label, s': State)
    requires GateOk(s) && Step(s, l, s')
    ensures GateOk(s')
  {
    hide CallerMoves, WriterMoves, DaemonMoves, InsideIds, GateUppers, ConfHolders;
    match l
    case Arrive(id, req) => InsideUpdate(s.callers, id, s'.callers[id]);
    case CallerStep(id, block) => GateCallerStep(s, id, block, s');
    case DaemonStart =>
    case DaemonStep => DaemonGate(s, s');
    case WriterArrive(id, cmd) =>
      UppersUpdate(s.writers, id, AtConf(cmd));
      HoldersUpdate(s.writers, id, AtConf(cmd));
    case WriterStep(id) => GateWriterStep(s, id, s');
    case Elsewhere(mem) =>
  }

  lemma DaemonGate(s: State, s': State)
    requires DaemonMoves(s, s')
    ensures SameConf(s.g, s'.g) && s'.callers == s.callers && s'.writers == s.writers && s'.g.actualSnc == s.g.actualSnc
  {
    hide Daemon, Serve;
    DaemonKeepsConf(s.g.callUsp.value, s.g, s.daemon.pc);
  }
}
