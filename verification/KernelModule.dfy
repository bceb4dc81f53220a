/** The kernel module's variables, updated in place by the statements of its callbacks, and a whole call on them.

    A callback is entered with the place where its thread is and performs the statement there; `moved` is false
    when the statement blocks.  The place of the other side is a ghost parameter: with it, every statement keeps
    the invariant of its protocol and is one event of the abstract call.  `CallThrough` runs a caller and the daemon on
    one module, in any order, until the caller returns. */
module KernelModule {
  import opened Rendezvous
  import opened System
  import opened Safety
  import opened CallerSteps
  import opened Configuration

  /** Where a call is: the variables, the caller's place and the daemon's. */
  datatype Moment = Moment(g: Globals, k: KPc, d: DPc)

  /** One enabled statement of the caller or of the daemon, and what it is in the life of the call. */
  predicate IsMove(t: Transport, snc: Container, a: Moment, e: Event, b: Moment) {
    || (CallUsp(a.g, a.k, snc) == KStep(b.g, b.k, e) && b.d == a.d)
    || (Daemon(t, a.g, a.d) == DStep(b.g, b.d, e) && b.k == a.k)
  }

  predicate IsCallRun(t: Transport, snc: Container, run: seq<Moment>, events: seq<Event>) {
    && |run| == |events| + 1
    && forall i :: 0 <= i < |events| ==> IsMove(t, snc, run[i], events[i], run[i + 1])
  }

  /** What is seen of the events. */
  function Seen(events: seq<Event>): (trace: seq<Event>) {
    if |events| == 0 then [] else Seen(events[..|events| - 1]) + Visible(events[|events| - 1])
  }

  lemma SeenNext(events: seq<Event>, e: Event)
    ensures Seen(events + [e]) == Seen(events) + Visible(e)
  {
    assert (events + [e])[..|events|] == events;
  }

  lemma RunNext(t: Transport, snc: Container, run: seq<Moment>, events: seq<Event>, e: Event, m: Moment)
    requires IsCallRun(t, snc, run, events) && IsMove(t, snc, run[|run| - 1], e, m)
    ensures IsCallRun(t, snc, run + [m], events + [e])
  {
    hide IsMove;
  }

  /** The configuration and the gate do not move during a call. */
  lemma {:induction false} RunKeepsConf(t: Transport, snc: Container, run: seq<Moment>, events: seq<Event>, i: nat)
    requires IsCallRun(t, snc, run, events) && i < |run|
    ensures SameConf(run[0].g, run[i].g)
  {
    hide CallUsp, Daemon, SameConf;
    if i == 0 {
      SameConfSelf(run[0].g);
    } else {
      RunKeepsConf(t, snc, run, events, i - 1);
      var a := run[i - 1];
      assert IsMove(t, snc, a, events[i - 1], run[i]);
      CallUspKeepsConf(a.g, a.k, snc);
      DaemonKeepsConf(t, a.g, a.d);
      SameConfTransitive(run[0].g, a.g, run[i].g);
    }
  }

  /** A statement of the caller: the step of the protocol, an event of the abstract call, one step nearer to the
      return. */
  ghost predicate CallerStepped(t: Transport, g: Globals, pc: KPc, d: DPc, snc: Container, moved: bool, g': Globals,
      next: KPc, e: Event) {
    && Inv(t, g', next, d) && Cycle(PhaseOf(t, g, pc, d), e, PhaseOf(t, g', next, d)) && SameConf(g, g')
    && g'.actualSnc == (if e == Store then snc else g.actualSnc) && (next == KOut <==> e == Return)
    && (if moved then e == Return || Rank(t, g', next, d) == Rank(t, g, pc, d) - 1
        else g' == g && next == pc && e == Tau)
  }

  ghost predicate DaemonStepped(t: Transport, g: Globals, k: KPc, pc: DPc, moved: bool, g': Globals, next: DPc,
      e: Event) {
    && Inv(t, g', k, next) && Cycle(PhaseOf(t, g, k, pc), e, PhaseOf(t, g', k, next)) && SameConf(g, g')
    && g'.actualSnc == g.actualSnc && e != Store && e != Return
    && (if moved then Rank(t, g', k, next) == Rank(t, g, k, pc) - 1 else g' == g && next == pc && e == Tau)
  }

  /** What a thread's statement must have done to the variables and to its place. */
  ghost predicate Made(r: KStepResult, g: Globals, pc: KPc, moved: bool, g': Globals, next: KPc) {
    match r
    case KBlocked => !moved && next == pc && g' == g
    case KStep(g1, pc1, _) => moved && next == pc1 && g' == g1
  }

  ghost predicate MadeByDaemon(r: DStepResult, g: Globals, pc: DPc, moved: bool, g': Globals, next: DPc) {
    match r
    case DBlocked => !moved && next == pc && g' == g
    case DStep(g1, pc1, _) => moved && next == pc1 && g' == g1
  }

  lemma CallerMade(t: Transport, g: Globals, pc: KPc, d: DPc, snc: Container, moved: bool, g': Globals, next: KPc)
      returns (e: Event)
    requires Inv(t, g, pc, d) && pc != KOut && Made(CallUsp(g, pc, snc), g, pc, moved, g', next)
    ensures CallerStepped(t, g, pc, d, snc, moved, g', next, e) && (moved ==> e == CallUsp(g, pc, snc).e)
  {
    hide Inv, PhaseOf, Rank, CallUsp, SameConf;
    e := if moved then CallUsp(g, pc, snc).e else Tau;
    if moved {
      CallerSimulates(t, g, pc, d, snc);
      CallUspKeepsConf(g, pc, snc);
      CallUspEvents(g, pc, snc);
      EveryStepCounts(t, g, pc, d, snc);
    } else {
      SameConfSelf(g);
    }
  }

  lemma DaemonMade(t: Transport, g: Globals, k: KPc, pc: DPc, moved: bool, g': Globals, next: DPc) returns (e: Event)
    requires Inv(t, g, k, pc) && MadeByDaemon(Daemon(t, g, pc), g, pc, moved, g', next)
    ensures DaemonStepped(t, g, k, pc, moved, g', next, e) && (moved ==> e == Daemon(t, g, pc).e)
  {
    hide Inv, PhaseOf, Rank, Daemon, SameConf;
    e := if moved then Daemon(t, g, pc).e else Tau;
    if moved {
      DaemonSimulates(t, g, k, pc);
      DaemonKeepsConf(t, g, pc);
      DaemonEvents(t, g, pc);
      EveryStepCounts(t, g, k, pc, g.actualSnc);
    } else {
      SameConfSelf(g);
    }
  }

  lemma EntryOk(g: Globals, cmd: Command)
    ensures WriterOk(g, AtConf(cmd))
  {}

  lemma SameConfSelf(g: Globals)
    ensures SameConf(g, g)
  {}

  lemma Received(g: Globals, pc: KPc, d: DPc, snc: Container)
    requires Inv(NL, g, pc, d)
    ensures g.nlFlag == 1 && pc.NWait1? ==> g.skbGlobal == Some(Packet(g.pid, Init))
    ensures g.nlFlag == 1 && pc.NWait2? ==> g.skbGlobal == Some(Packet(g.pid, Address(ADDRESS)))
  {}

  lemma SlotIsFree(g: Globals, k: KPc, pc: DPc)
    requires Inv(NL, g, k, pc)
    ensures pc.DnFree? || pc.DnCopy? || pc.DnFlag? ==> k.NWait1? || k.NWait2?
  {}

  lemma TokenBound(g: Globals, k: KPc, pc: DPc)
    requires Inv(IOCTL, g, k, pc)
    ensures g.initSem <= 1
  {}

  lemma PlacesOfCaller(t: Transport, g: Globals, pc: KPc, d: DPc)
    requires Inv(t, g, pc, d) && pc != KOut
    ensures t == PROCFS ==> pc.PDown? || pc.PCopy? || pc.PClear? || pc.PWait? || pc.PUp?
    ensures t == IOCTL ==> pc.IDownInit? || pc.IDownCall? || pc.ICopy? || pc.IClear? || pc.IWait? || pc.IUp?
    ensures t == NL ==> pc.NDown? || NlBusy(pc)
  {}

  lemma PlacesOfDaemon(t: Transport, g: Globals, k: KPc, pc: DPc)
    requires Inv(t, g, k, pc)
    ensures t == PROCFS ==> DpRest(pc) || pc.DpUpRead? || pc.DServing? || pc.DpDownWrite? || pc.DpSet?
    ensures t == IOCTL ==> Committed(pc) || pc.DServing? || pc.DiSet? || pc.DiUpInit?
    ensures t == NL ==> pc.DnReceive? || pc.DServing? || pc.DnWait? || Replacing(pc)
  {}

  lemma DaemonKept(t: Transport, g: Globals, k: KPc, pc: DPc, moved: bool, g': Globals, next: DPc, e: Event)
    requires DaemonStepped(t, g, k, pc, moved, g', next, e)
    ensures Inv(t, g', k, next)
  {
    hide Inv, PhaseOf, Rank;
  }

  /** The unit of the gate semaphore, and the one of conf_mutex, as far as one writer is concerned. */
  function GateShare(g: Globals, w: Writer): (share: nat) {
    g.gate + (if w.UppingGate? then 1 else 0) + (if g.configured then 0 else 1)
  }

  function ConfShare(g: Globals, w: Writer): (share: nat) {
    g.confMutex + (if HoldsConf(w) then 1 else 0)
  }

  /** The daemon's buffer must hold the address it read. */
  predicate HoldsAddress(t: Transport, d: DPc) {
    t == PROCFS && (d.DServing? || d.DpDownWrite? || d.DpSet?)
  }

  class Module {
    var genSyndromeMutex: nat
    var confMutex: nat
    var pid: nat
    var configured: bool
    var callUsp: Option<Transport>
    var actualSnc: Container

    var procfsWqFlag: int
    var callUspProcMutex: nat
    var procReadMutex: nat
    var procWriteMutex: nat

    var ioctlWqEnterFlag: int
    var ioctlInitMutex: nat
    var callUspIoctlMutex: nat
    var ioctlCallbackMutex: nat

    var nlReceiveFlag: int
    var callUspNlMutex: nat
    var skbGlobal: Option<Packet>
    var socket: seq<Packet>

    function Snapshot(): (g: Globals)
      reads this
    {
      Globals(genSyndromeMutex, confMutex, pid, configured, callUsp, actualSnc,
              procfsWqFlag, callUspProcMutex, procReadMutex, procWriteMutex,
              ioctlWqEnterFlag, ioctlInitMutex, callUspIoctlMutex, ioctlCallbackMutex,
              nlReceiveFlag, callUspNlMutex, skbGlobal, socket)
    }

    /** The declarations of the variables, and `barracuda_start`, which takes down two semaphores. */
    constructor BarracudaStart()
      ensures Fresh(Snapshot()) && genSyndromeMutex == 0 && confMutex == 1 && pid == 0 && !configured && callUsp == None
    {
      genSyndromeMutex, confMutex, pid, configured, callUsp, actualSnc := 1, 1, 0, false, None, Container(0, 0, 0);
      procfsWqFlag, callUspProcMutex, procReadMutex, procWriteMutex := 2, 1, 1, 1;
      ioctlWqEnterFlag, ioctlInitMutex, callUspIoctlMutex, ioctlCallbackMutex := 1, 1, 1, 1;
      nlReceiveFlag, callUspNlMutex, skbGlobal, socket := 2, 1, None, [];
      new;
      genSyndromeMutex := genSyndromeMutex - 1;
      ioctlInitMutex := ioctlInitMutex - 1;
    }

    method CallUspProc(pc: KPc, snc: Container, ghost d: DPc) returns (moved: bool, next: KPc, ghost e: Event)
      requires pc.PDown? || pc.PCopy? || pc.PClear? || pc.PWait? || pc.PUp?
      requires Inv(PROCFS, Snapshot(), pc, d)
      modifies this
      ensures CallerStepped(PROCFS, old(Snapshot()), pc, d, snc, moved, Snapshot(), next, e)
      ensures Made(CallUsp(old(Snapshot()), pc, snc), old(Snapshot()), pc, moved, Snapshot(), next)
      ensures moved ==> e == CallUsp(old(Snapshot()), pc, snc).e
    {
      hide Inv, CallerStepped;
      ghost var g := Snapshot();
      moved := true;
      match pc {
      case PDown =>
        moved := callUspProcMutex > 0;
        if moved { callUspProcMutex := callUspProcMutex - 1; }
        next := if moved then PCopy else pc;
      case PCopy =>
        actualSnc := snc;
        next := PClear;
      case PClear =>
        procfsWqFlag := 0;
        next := PWait;
      case PWait =>
        moved := procfsWqFlag == 2;
        next := if moved then PUp else pc;
      case PUp =>
        callUspProcMutex := callUspProcMutex + 1;
        next := KOut;
      }
      e := CallerMade(PROCFS, g, pc, d, snc, moved, Snapshot(), next);
    }

    method CallUspIoctl(pc: KPc, snc: Container, ghost d: DPc) returns (moved: bool, next: KPc, ghost e: Event)
      requires pc.IDownInit? || pc.IDownCall? || pc.ICopy? || pc.IClear? || pc.IWait? || pc.IUp?
      requires Inv(IOCTL, Snapshot(), pc, d)
      modifies this
      ensures CallerStepped(IOCTL, old(Snapshot()), pc, d, snc, moved, Snapshot(), next, e)
      ensures Made(CallUsp(old(Snapshot()), pc, snc), old(Snapshot()), pc, moved, Snapshot(), next)
      ensures moved ==> e == CallUsp(old(Snapshot()), pc, snc).e
    {
      hide Inv, CallerStepped;
      ghost var g := Snapshot();
      moved := true;
      match pc {
      case IDownInit =>
        moved := ioctlInitMutex > 0;
        if moved { ioctlInitMutex := ioctlInitMutex - 1; }
        next := if moved then IDownCall else pc;
      case IDownCall =>
        moved := callUspIoctlMutex > 0;
        if moved { callUspIoctlMutex := callUspIoctlMutex - 1; }
        next := if moved then ICopy else pc;
      case ICopy =>
        actualSnc := snc;
        next := IClear;
      case IClear =>
        ioctlWqEnterFlag := 0;
        next := IWait;
      case IWait =>
        moved := ioctlWqEnterFlag == 1;
        next := if moved then IUp else pc;
      case IUp =>
        callUspIoctlMutex := callUspIoctlMutex + 1;
        next := KOut;
      }
      e := CallerMade(IOCTL, g, pc, d, snc, moved, Snapshot(), next);
    }

    /** The statements of call_usp_nl outside of nl_recv_pkg. */
    method CallUspNl(pc: KPc, snc: Container, ghost d: DPc) returns (moved: bool, next: KPc, ghost e: Event)
      requires pc.NDown? || pc.NPid? || pc.NCopy? || pc.NSend? || pc.NAddr? || pc.NUp?
      requires Inv(NL, Snapshot(), pc, d)
      modifies this
      ensures CallerStepped(NL, old(Snapshot()), pc, d, snc, moved, Snapshot(), next, e)
      ensures Made(CallUsp(old(Snapshot()), pc, snc), old(Snapshot()), pc, moved, Snapshot(), next)
      ensures moved ==> e == CallUsp(old(Snapshot()), pc, snc).e
    {
      hide Inv, CallerStepped;
      ghost var g := Snapshot();
      moved := true;
      match pc {
      case NDown =>
        moved := callUspNlMutex > 0;
        if moved { callUspNlMutex := callUspNlMutex - 1; }
        next := if moved then NClear1 else pc;
      case NPid(skb) =>
        next := if skb.pid == pid then NCopy else NFailed;
      case NCopy =>
        actualSnc := snc;
        next := NSend;
      case NSend =>
        socket := socket + [Packet(0, Address(ADDRESS))];
        next := NClear2;
      case NAddr(skb) =>
        next := if skb.payload == Address(ADDRESS) then NUp else NFailed;
      case NUp =>
        callUspNlMutex := callUspNlMutex + 1;
        next := KOut;
      }
      e := CallerMade(NL, g, pc, d, snc, moved, Snapshot(), next);
    }

    /** nl_recv_pkg, which call_usp_nl calls twice. */
    method NlRecvPkg(pc: KPc, snc: Container, ghost d: DPc) returns (moved: bool, next: KPc, ghost e: Event)
      requires pc.NClear1? || pc.NWait1? || pc.NClear2? || pc.NWait2?
      requires Inv(NL, Snapshot(), pc, d)
      modifies this
      ensures CallerStepped(NL, old(Snapshot()), pc, d, snc, moved, Snapshot(), next, e)
      ensures Made(CallUsp(old(Snapshot()), pc, snc), old(Snapshot()), pc, moved, Snapshot(), next)
      ensures moved ==> e == CallUsp(old(Snapshot()), pc, snc).e
      ensures moved && pc.NWait1? ==> next == NPid(Packet(pid, Init))
      ensures moved && pc.NWait2? ==> next == NAddr(Packet(pid, Address(ADDRESS)))
    {
      hide Inv, CallerStepped;
      ghost var g := Snapshot();
      Received(g, pc, d, snc);
      moved := true;
      match pc {
      case NClear1 =>
        nlReceiveFlag := 0;
        next := NWait1;
      case NWait1 =>
        moved := nlReceiveFlag == 1;
        next := if !moved then pc else if skbGlobal.Some? then NPid(skbGlobal.value) else NFailed;
      case NClear2 =>
        nlReceiveFlag := 0;
        next := NWait2;
      case NWait2 =>
        moved := nlReceiveFlag == 1;
        next := if !moved then pc else if skbGlobal.Some? then NAddr(skbGlobal.value) else NFailed;
      }
      e := CallerMade(NL, g, pc, d, snc, moved, Snapshot(), next);
    }

    /** The daemon's read yields the address of `actual_snc`. */
    method ProcRead(pc: DPc, ghost k: KPc) returns (moved: bool, next: DPc, page: nat, ghost e: Event)
      requires pc.DpDownRead? || pc.DpWait? || pc.DpUpRead?
      requires Inv(PROCFS, Snapshot(), k, pc)
      modifies this
      ensures DaemonStepped(PROCFS, old(Snapshot()), k, pc, moved, Snapshot(), next, e)
      ensures MadeByDaemon(Daemon(PROCFS, old(Snapshot()), pc), old(Snapshot()), pc, moved, Snapshot(), next)
      ensures moved ==> e == Daemon(PROCFS, old(Snapshot()), pc).e
      ensures page == ADDRESS
    {
      hide Inv, DaemonStepped;
      ghost var g := Snapshot();
      moved := true;
      page := ADDRESS;
      match pc {
      case DpDownRead =>
        moved := procReadMutex > 0;
        if moved { procReadMutex := procReadMutex - 1; }
        next := if moved then DpWait else pc;
      case DpWait =>
        moved := procfsWqFlag == 0;
        next := if moved then DpUpRead else pc;
      case DpUpRead =>
        procReadMutex := procReadMutex + 1;
        next := DServing;
      }
      e := DaemonMade(PROCFS, g, k, pc, moved, Snapshot(), next);
    }

    /** The daemon's write brings back an address: the flag is set only if it is the one that was read; otherwise the
        write fails, and leaves the semaphore down. */
    method ProcWrite(pc: DPc, backAddress: nat, ghost k: KPc)
        returns (moved: bool, failed: bool, next: DPc, ghost e: Event)
      requires pc.DpDownWrite? || pc.DpSet? || pc.DpUpWrite?
      requires Inv(PROCFS, Snapshot(), k, pc)
      modifies this
      ensures failed <==> pc.DpSet? && backAddress != ADDRESS
      ensures failed ==> !moved && Snapshot() == old(Snapshot())
      ensures HoldsAddress(PROCFS, next) ==> HoldsAddress(PROCFS, pc)
      ensures !failed ==> DaemonStepped(PROCFS, old(Snapshot()), k, pc, moved, Snapshot(), next, e)
      ensures !failed ==> MadeByDaemon(Daemon(PROCFS, old(Snapshot()), pc), old(Snapshot()), pc, moved, Snapshot(),
              next)
      ensures !failed && moved ==> e == Daemon(PROCFS, old(Snapshot()), pc).e
    {
      hide Inv, DaemonStepped;
      ghost var g := Snapshot();
      moved, failed, e := true, false, Tau;
      match pc {
      case DpDownWrite =>
        moved := procWriteMutex > 0;
        if moved { procWriteMutex := procWriteMutex - 1; }
        next := if moved then DpSet else pc;
      case DpSet =>
        if backAddress != ADDRESS {
          moved, failed, next := false, true, pc;
          return;
        }
        procfsWqFlag := 2;
        next := DpUpWrite;
      case DpUpWrite =>
        procWriteMutex := procWriteMutex + 1;
        next := DpDownRead;
      }
      e := DaemonMade(PROCFS, g, k, pc, moved, Snapshot(), next);
    }

    method IoctlCallback(pc: DPc, ghost k: KPc) returns (moved: bool, next: DPc, ghost e: Event)
      requires pc.DiSet? || pc.DiUpInit? || pc.DiUpCallback? || pc.DiDownCallback? || pc.DiWait?
      requires Inv(IOCTL, Snapshot(), k, pc)
      modifies this
      ensures DaemonStepped(IOCTL, old(Snapshot()), k, pc, moved, Snapshot(), next, e)
      ensures MadeByDaemon(Daemon(IOCTL, old(Snapshot()), pc), old(Snapshot()), pc, moved, Snapshot(), next)
      ensures moved ==> e == Daemon(IOCTL, old(Snapshot()), pc).e
      ensures ioctlInitMutex <= 1
    {
      hide Inv, DaemonStepped;
      ghost var g := Snapshot();
      moved := true;
      match pc {
      case DiSet =>
        ioctlWqEnterFlag := 1;
        next := DiUpInit;
      case DiUpInit =>
        ioctlInitMutex := ioctlInitMutex + 1;
        next := DiUpCallback;
      case DiUpCallback =>
        ioctlCallbackMutex := ioctlCallbackMutex + 1;
        next := DiDownCallback;
      case DiDownCallback =>
        moved := ioctlCallbackMutex > 0;
        if moved { ioctlCallbackMutex := ioctlCallbackMutex - 1; }
        next := if moved then DiWait else pc;
      case DiWait =>
        moved := ioctlWqEnterFlag == 0;
        next := if moved then DServing else pc;
      }
      e := DaemonMade(IOCTL, g, k, pc, moved, Snapshot(), next);
      TokenBound(Snapshot(), k, next) by { DaemonKept(IOCTL, g, k, pc, moved, Snapshot(), next, e); }
    }

    method NlDataReady(pc: DPc, ghost k: KPc) returns (moved: bool, next: DPc, ghost e: Event)
      requires pc.DnWait? || pc.DnFree? || pc.DnCopy? || pc.DnFlag?
      requires Inv(NL, Snapshot(), k, pc)
      modifies this
      ensures DaemonStepped(NL, old(Snapshot()), k, pc, moved, Snapshot(), next, e)
      ensures MadeByDaemon(Daemon(NL, old(Snapshot()), pc), old(Snapshot()), pc, moved, Snapshot(), next)
      ensures moved ==> e == Daemon(NL, old(Snapshot()), pc).e
      ensures pc.DnFree? || pc.DnCopy? || pc.DnFlag? ==> k.NWait1? || k.NWait2?
    {
      hide Inv, DaemonStepped;
      ghost var g := Snapshot();
      SlotIsFree(g, k, pc);
      moved := true;
      match pc {
      case DnWait(m) =>
        moved := nlReceiveFlag == 0;
        next := if moved then DnFree(m) else pc;
      case DnFree(m) =>
        skbGlobal := None;
        next := DnCopy(m);
      case DnCopy(m) =>
        skbGlobal := Some(Packet(pid, m));
        next := DnFlag(m);
      case DnFlag(m) =>
        nlReceiveFlag := 1;
        next := if m.Init? then DnReceive else DnWait(Init);
      }
      e := DaemonMade(NL, g, k, pc, moved, Snapshot(), next);
    }

    /** conf_write: besides the step, the unit that opens the gate is neither lost nor made, and conf_mutex is held by
        one. */
    method ConfWriteStatement(w: Writer) returns (moved: bool, next: Writer)
      requires WriterOk(Snapshot(), w)
      modifies this
      ensures WriterOk(Snapshot(), next)
      ensures GateShare(Snapshot(), next) == GateShare(old(Snapshot()), w) &&
              ConfShare(Snapshot(), next) == ConfShare(old(Snapshot()), w)
      ensures match ConfWrite(old(Snapshot()), w)
              case WBlocked => !moved && next == w && Snapshot() == old(Snapshot())
              case WStep(g, w') => moved && next == w' && Snapshot() == g
    {
      hide WriterOk, HoldsConf;
      ghost var g := Snapshot();
      moved, next := true, w;
      match w {
      case AtConf(cmd) =>
        moved := confMutex > 0;
        if moved {
          confMutex := confMutex - 1;
          next := Checking(cmd);
        }
      case Checking(cmd) =>
        if configured || cmd == Rejected {
          next := LeftHolding;
        } else if pid == 0 {
          if cmd.SetPid? { pid := cmd.pid; }
          next := UppingConf;
        } else if cmd.SetCon? {
          next := SettingUsp(cmd.t);
        } else {
          next := UppingConf;
        }
      case SettingUsp(t) =>
        callUsp := Some(t);
        next := SettingConfigured;
      case SettingConfigured =>
        configured := true;
        next := UppingGate;
      case UppingGate =>
        genSyndromeMutex := genSyndromeMutex + 1;
        next := UppingConf;
      case UppingConf =>
        confMutex := confMutex + 1;
        next := Left;
      case Left => moved := false;
      case LeftHolding => moved := false;
      }
      if moved {
        WriterGate(g, w);
        WriterNext(g, w);
      }
    }

    /** conf_write from its entry to its return, by the writer that finds conf_mutex up. */
    method WriteConfiguration(cmd: Command) returns (w: Writer)
      requires confMutex > 0
      modifies this
      ensures old(configured) || cmd == Rejected ==>
                w == LeftHolding && Snapshot() == old(Snapshot()).(confMutex := old(confMutex) - 1)
      ensures !old(configured) && old(pid) == 0 && cmd.SetPid? ==>
                w == Left && Snapshot() == old(Snapshot()).(pid := cmd.pid)
      ensures !old(configured) && old(pid) == 0 && (cmd.SetCon? || cmd.Other?) ==>
                w == Left && Snapshot() == old(Snapshot())
      ensures !old(configured) && old(pid) != 0 && cmd.SetCon? ==>
                && w == Left
                && Snapshot() == old(Snapshot()).(callUsp := Some(cmd.t), configured := true,
                    gate := old(genSyndromeMutex) + 1)
      ensures !old(configured) && old(pid) != 0 && (cmd.SetPid? || cmd.Other?) ==>
                w == Left && Snapshot() == old(Snapshot())
    {
      hide Finish, ConfWrite, WriterOk;
      ghost var g := Snapshot();
      w := AtConf(cmd);
      EntryOk(g, cmd);
      WholeWrite(g, cmd);
      var moved := true;
      while moved
        invariant WriterOk(Snapshot(), w) && Finish(Snapshot(), w) == Finish(g, AtConf(cmd))
        invariant !moved ==> ConfWrite(Snapshot(), w).WBlocked?
        decreases WriterLeft(w), moved
      {
        ghost var before, at := Snapshot(), w;
        moved, w := ConfWriteStatement(w);
        if moved {
          FinishStep(before, at);
          WriterNearer(before, at);
        }
      }
      FinishEnd(Snapshot(), w);
    }

    // ----- A whole call -----

    /** The caller's next statement, whatever its transport. */
    method CallerStatement(t: Transport, pc: KPc, snc: Container, ghost d: DPc)
        returns (moved: bool, next: KPc, ghost e: Event)
      requires Inv(t, Snapshot(), pc, d) && pc != KOut
      modifies this
      ensures CallerStepped(t, old(Snapshot()), pc, d, snc, moved, Snapshot(), next, e)
      ensures Made(CallUsp(old(Snapshot()), pc, snc), old(Snapshot()), pc, moved, Snapshot(), next)
      ensures moved ==> e == CallUsp(old(Snapshot()), pc, snc).e
    {
      hide Inv, CallerStepped, CallUsp;
      PlacesOfCaller(t, Snapshot(), pc, d);
      match t
      case PROCFS => moved, next, e := CallUspProc(pc, snc, d);
      case IOCTL => moved, next, e := CallUspIoctl(pc, snc, d);
      case NL =>
        if pc.NClear1? || pc.NWait1? || pc.NClear2? || pc.NWait2? {
          moved, next, e := NlRecvPkg(pc, snc, d);
        } else {
          moved, next, e := CallUspNl(pc, snc, d);
        }
    }

    /** The daemon's next statement: in the kernel on its behalf, or its service of the container, or recvmsg.  It keeps
        the address that it read last. */
    method DaemonStatement(t: Transport, pc: DPc, buffer: nat, ghost k: KPc)
      returns (moved: bool, next: DPc, buffer': nat, ghost e: Event)
      requires Inv(t, Snapshot(), k, pc) && (HoldsAddress(t, pc) ==> buffer == ADDRESS)
      modifies this
      ensures DaemonStepped(t, old(Snapshot()), k, pc, moved, Snapshot(), next, e)
      ensures MadeByDaemon(Daemon(t, old(Snapshot()), pc), old(Snapshot()), pc, moved, Snapshot(), next)
      ensures moved ==> e == Daemon(t, old(Snapshot()), pc).e
      ensures HoldsAddress(t, next) ==> buffer' == ADDRESS
    {
      hide Inv, DaemonStepped;
      ghost var g := Snapshot();
      PlacesOfDaemon(t, g, k, pc);
      buffer' := buffer;
      if pc.DServing? {
        moved, next := true, AfterServing(t);
        e := DaemonMade(t, g, k, pc, moved, Snapshot(), next);
      } else if pc.DnReceive? {
        moved := |socket| > 0;
        if moved {
          socket := socket[1..];
        }
        next := if moved then DServing else pc;
        e := DaemonMade(t, g, k, pc, moved, Snapshot(), next);
      } else if pc.DpDownRead? || pc.DpWait? || pc.DpUpRead? {
        moved, next, buffer', e := ProcRead(pc, k);
      } else if pc.DpDownWrite? || pc.DpSet? || pc.DpUpWrite? {
        var failed;
        moved, failed, next, e := ProcWrite(pc, buffer, k);
      } else if t == IOCTL {
        moved, next, e := IoctlCallback(pc, k);
      } else {
        moved, next, e := NlDataReady(pc, k);
      }
    }

    /** call_usp: the caller and the daemon move in any order, whichever can, until the caller is through.  Every order
        comes to an end.  The call was a run of enabled statements from its entry to its return, and in it the caller's
        container was stored, and taken up, finished and returned once. */
    method CallThrough(t: Transport, snc: Container, d0: DPc, buffer0: nat)
      returns (d: DPc, buffer: nat, ghost run: seq<Moment>, ghost events: seq<Event>)
      requires Inv(t, Snapshot(), KOut, d0) && (HoldsAddress(t, d0) ==> buffer0 == ADDRESS)
      modifies this
      ensures Inv(t, Snapshot(), KOut, d) && (HoldsAddress(t, d) ==> buffer == ADDRESS)
      ensures IsCallRun(t, snc, run, events)
      ensures run[0] == Moment(old(Snapshot()), Entry(t), d0) && run[|run| - 1] == Moment(Snapshot(), KOut, d)
      ensures Seen(events) == [Store, Begin, End, Return]
      ensures actualSnc == snc && SameConf(old(Snapshot()), Snapshot())
    {
      hide Inv, CallerStepped, DaemonStepped, CallUsp, Daemon, PhaseOf, Rank, Prefix, SameConf, IsCallRun, IsMove, Seen;
      var k := Entry(t);
      d, buffer := d0, buffer0;
      run, events := [Moment(Snapshot(), k, d)], [];
      RunStart(t, snc, Moment(Snapshot(), k, d));
      InvEnter(t, Snapshot(), d);
      EnteredIsNew(t);
      SameConfSelf(Snapshot());
      while k != KOut
        invariant Inv(t, Snapshot(), k, d) && (HoldsAddress(t, d) ==> buffer == ADDRESS)
        invariant SameConf(old(Snapshot()), Snapshot())
        invariant SeenSoFar(t, Snapshot(), k, d, snc, Seen(events))
        invariant IsCallRun(t, snc, run, events) && |run| > 0
        invariant run[0] == Moment(old(Snapshot()), Entry(t), d0) && run[|run| - 1] == Moment(Snapshot(), k, d)
        decreases if k == KOut then 0 else 1 + Rank(t, Snapshot(), k, d)
      {
        ghost var g, k0, d0 := Snapshot(), k, d;
        ghost var e;
        var moved;
        SomeoneMoves(t, g, k, d, snc);
        if {
          case CallUsp(Snapshot(), k, snc).KStep? =>
            moved, k, e := CallerStatement(t, k, snc, d);
            CallerMoved(t, g, k0, d, snc, moved, Snapshot(), k, e);
            CallerSeen(t, g, k0, d, snc, Snapshot(), k, e, Seen(events));
          case Daemon(t, Snapshot(), d).DStep? =>
            moved, d, buffer, e := DaemonStatement(t, d, buffer, k);
            DaemonMoved(t, g, k, d0, snc, moved, Snapshot(), d, e);
            DaemonSeen(t, g, k, d0, snc, Snapshot(), d, e, Seen(events));
        }
        SameConfTransitive(old(Snapshot()), g, Snapshot());
        RunNext(t, snc, run, events, e, Moment(Snapshot(), k, d));
        SeenNext(events, e);
        run, events := run + [Moment(Snapshot(), k, d)], events + [e];
      }
      SeenOut(t, Snapshot(), d, snc, Seen(events));
    }

    /** raid6_cuda_gen_syndrome, by the caller that finds the gate open; `block` is the pointer array of pack_smc.  The
        whole call runs with the gate taken. */
    method GenSyndrome(disks: nat, bytes: nat, block: nat, d0: DPc, buffer0: nat)
      returns (d: DPc, buffer: nat, ghost run: seq<Moment>, ghost events: seq<Event>)
      requires genSyndromeMutex > 0 && callUsp.Some? && Inv(callUsp.value, Snapshot(), KOut, d0)
      requires HoldsAddress(callUsp.value, d0) ==> buffer0 == ADDRESS
      modifies this
      ensures callUsp == old(callUsp) && Inv(callUsp.value, Snapshot(), KOut, d)
      ensures HoldsAddress(callUsp.value, d) ==> buffer == ADDRESS
      ensures IsCallRun(callUsp.value, Container(disks, bytes, block), run, events)
      ensures var taken := old(Snapshot()).gate - 1;
              && run[0] == Moment(old(Snapshot()).(gate := taken), Entry(callUsp.value), d0)
              && run[|run| - 1] == Moment(Snapshot().(gate := taken), KOut, d)
              && forall i :: 0 <= i < |run| ==> run[i].g.gate == taken
      ensures Seen(events) == [Store, Begin, End, Return] && actualSnc == Container(disks, bytes, block)
      ensures SameConf(old(Snapshot()), Snapshot())
    {
      hide Inv, PhaseOf, IsCallRun, Seen;
      var t := callUsp.value;
      ghost var g := Snapshot();
      genSyndromeMutex := genSyndromeMutex - 1;
      InvFrame(t, g, Snapshot(), KOut, d0);
      d, buffer, run, events := CallThrough(t, Container(disks, bytes, block), d0, buffer0);
      forall i | 0 <= i < |run|
        ensures run[i].g.gate == run[0].g.gate
      {
        RunKeepsConf(t, Container(disks, bytes, block), run, events, i);
      }
      g := Snapshot();
      genSyndromeMutex := genSyndromeMutex + 1;
      InvFrame(t, g, Snapshot(), KOut, d);
    }
  }

  lemma RunStart(t: Transport, snc: Container, m: Moment)
    ensures IsCallRun(t, snc, [m], []) && Seen([]) == []
  {}

  lemma CallerMoved(t: Transport, g: Globals, k: KPc, d: DPc, snc: Container, moved: bool, g': Globals, k': KPc,
      e: Event)
    requires CallUsp(g, k, snc).KStep? && Made(CallUsp(g, k, snc), g, k, moved, g', k')
    requires e == CallUsp(g, k, snc).e
    ensures moved && IsMove(t, snc, Moment(g, k, d), e, Moment(g', k', d))
  {
    hide CallUsp;
  }

  lemma DaemonMoved(t: Transport, g: Globals, k: KPc, d: DPc, snc: Container, moved: bool, g': Globals, d': DPc,
      e: Event)
    requires Daemon(t, g, d).DStep? && MadeByDaemon(Daemon(t, g, d), g, d, moved, g', d')
    requires e == Daemon(t, g, d).e
    ensures moved && IsMove(t, snc, Moment(g, k, d), e, Moment(g', k, d'))
  {
    hide Daemon;
  }

  /** What has been seen of the call so far, and that the container is stored from then on. */
  ghost predicate SeenSoFar(t: Transport, g: Globals, k: KPc, d: DPc, snc: Container, trace: seq<Event>) {
    if k == KOut then trace == [Store, Begin, End, Return] && g.actualSnc == snc
    else trace == Prefix(PhaseOf(t, g, k, d)) && (PhaseOf(t, g, k, d) == Idle || g.actualSnc == snc)
  }

  lemma EnteredIsNew(t: Transport)
    ensures Entry(t) != KOut && Prefix(Idle) == []
  {}

  lemma SameConfTransitive(g: Globals, g': Globals, g'': Globals)
    requires SameConf(g, g') && SameConf(g', g'')
    ensures SameConf(g, g'')
  {}

  lemma CallerSeen(t: Transport, g: Globals, k: KPc, d: DPc, snc: Container, g': Globals, k': KPc, e: Event,
      trace: seq<Event>)
    requires k != KOut && SeenSoFar(t, g, k, d, snc, trace) && CallerStepped(t, g, k, d, snc, true, g', k', e)
    ensures Inv(t, g', k', d) && SameConf(g, g') && SeenSoFar(t, g', k', d, snc, trace + Visible(e))
    ensures k' == KOut || Rank(t, g', k', d) < Rank(t, g, k, d)
  {
    hide Inv, PhaseOf, Rank, SameConf, Prefix, Visible;
    CyclePrefix(PhaseOf(t, g, k, d), e, PhaseOf(t, g', k', d));
  }

  lemma DaemonSeen(t: Transport, g: Globals, k: KPc, d: DPc, snc: Container, g': Globals, d': DPc, e: Event,
      trace: seq<Event>)
    requires k != KOut && SeenSoFar(t, g, k, d, snc, trace) && DaemonStepped(t, g, k, d, true, g', d', e)
    ensures Inv(t, g', k, d') && SameConf(g, g') && SeenSoFar(t, g', k, d', snc, trace + Visible(e))
    ensures Rank(t, g', k, d') < Rank(t, g, k, d)
  {
    hide Inv, PhaseOf, Rank, SameConf, Prefix, Visible;
    CyclePrefix(PhaseOf(t, g, k, d), e, PhaseOf(t, g', k, d'));
  }

  lemma SeenOut(t: Transport, g: Globals, d: DPc, snc: Container, trace: seq<Event>)
    requires SeenSoFar(t, g, KOut, d, snc, trace)
    ensures trace == [Store, Begin, End, Return] && g.actualSnc == snc
  {}
}
