/** The three protocols by which a kernel caller hands its container to the daemon.

    Each thread is a program counter; a step is one access to the shared variables.  `wake_up` and the
    waking of a waiter are the enabling of its step, as wait_event re-evaluates its condition. */
module Rendezvous {
  datatype Option<+T> = None | Some(value: T)

  datatype Transport = PROCFS | IOCTL | NL

  /** The marshalling struct: its `ptrs` is the identity of the pointer array that pack_smc allocated. */
  datatype Container = Container(disks: nat, bytes: nat, ptrs: nat)

  /** A netlink packet: the sender's pid, and the payload: "init", or the echoed address. */
  datatype Payload = Init | Address(a: nat)
  datatype Packet = Packet(pid: nat, payload: Payload)

  /** The address of the kernel variable `actual_snc`, the token that travels to the daemon and back. */
  const ADDRESS: nat := 0x1000

  /** The shared variables of the kernel module. */
  datatype Globals = Globals(
    gate: nat, confMutex: nat, pid: nat, configured: bool, callUsp: Option<Transport>, actualSnc: Container,
    procFlag: int, procMutex: nat, readMutex: nat, writeMutex: nat,
    ioctlFlag: int, initSem: nat, ioctlMutex: nat, callbackSem: nat,
    nlFlag: int, nlMutex: nat, skbGlobal: Option<Packet>, queue: seq<Packet>)

  /** What a step is in the life of a call. */
  datatype Event = Tau | Store | Begin | End | Return

  /** A call of the daemon, seen from outside. */
  datatype Phase = Idle | Stored | Serving | Served

  /** The abstract call: store the container, serve it once, return. */
  predicate Cycle(a: Phase, e: Event, a': Phase) {
    match e
    case Tau => a' == a
    case Store => a == Idle && a' == Stored
    case Begin => a == Stored && a' == Serving
    case End => a == Serving && a' == Served
    case Return => a == Served && a' == Idle
  }

  /** What is seen of a call, and has been when it is in the given phase. */
  function Visible(e: Event): (events: seq<Event>) {
    if e == Tau then [] else [e]
  }

  function Prefix(phase: Phase): (events: seq<Event>) {
    match phase
    case Idle => []
    case Stored => [Store]
    case Serving => [Store, Begin]
    case Served => [Store, Begin, End]
  }

  lemma CyclePrefix(a: Phase, e: Event, a': Phase)
    requires Cycle(a, e, a')
    ensures e != Return ==> Prefix(a') == Prefix(a) + Visible(e)
    ensures e == Return ==> Prefix(a) + Visible(e) == [Store, Begin, End, Return]
  {}

  // ----- Threads -----

  /** The caller inside call_usp_proc, call_usp_ioctl and call_usp_nl, before the named statement. */
  datatype KPc =
    | KOut
    | PDown | PCopy | PClear | PWait | PUp
    | IDownInit | IDownCall | ICopy | IClear | IWait | IUp
    | NDown | NClear1 | NWait1 | NPid(skb: Packet) | NCopy | NSend | NClear2 | NWait2 | NAddr(skb: Packet) | NUp
    | NFailed

  /** The daemon in server_procfs, server_ioctl_callback and server_netlink, and in the kernel on its behalf. */
  datatype DPc =
    | DServing
    | DpDownRead | DpWait | DpUpRead | DpDownWrite | DpSet | DpUpWrite
    | DiSet | DiUpInit | DiUpCallback | DiDownCallback | DiWait
    | DnWait(send: Payload) | DnFree(send: Payload) | DnCopy(send: Payload) | DnFlag(send: Payload) | DnReceive

  function Entry(t: Transport): (k: KPc) {
    match t
    case PROCFS => PDown
    case IOCTL => IDownInit
    case NL => NDown
  }

  function DaemonEntry(t: Transport): (d: DPc) {
    match t
    case PROCFS => DpDownRead
    case IOCTL => DiSet
    case NL => DnWait(Init)
  }

  datatype KStepResult = KBlocked | KStep(g: Globals, pc: KPc, e: Event)
  datatype DStepResult = DBlocked | DStep(g: Globals, pc: DPc, e: Event)

  /** One statement of call_usp. */
  function CallUsp(g: Globals, pc: KPc, snc: Container): (step: KStepResult) {
    match pc
    // call_usp_proc
    case PDown => if g.procMutex == 0 then KBlocked else KStep(g.(procMutex := g.procMutex - 1), PCopy, Tau)
    case PCopy => KStep(g.(actualSnc := snc), PClear, Store)
    case PClear => KStep(g.(procFlag := 0), PWait, Tau)
    case PWait => if g.procFlag != 2 then KBlocked else KStep(g, PUp, Tau)
    case PUp => KStep(g.(procMutex := g.procMutex + 1), KOut, Return)
    // call_usp_ioctl
    case IDownInit => if g.initSem == 0 then KBlocked else KStep(g.(initSem := g.initSem - 1), IDownCall, Tau)
    case IDownCall => if g.ioctlMutex == 0 then KBlocked else KStep(g.(ioctlMutex := g.ioctlMutex - 1), ICopy, Tau)
    case ICopy => KStep(g.(actualSnc := snc), IClear, Store)
    case IClear => KStep(g.(ioctlFlag := 0), IWait, Tau)
    case IWait => if g.ioctlFlag != 1 then KBlocked else KStep(g, IUp, Tau)
    case IUp => KStep(g.(ioctlMutex := g.ioctlMutex + 1), KOut, Return)
    // call_usp_nl
    case NDown => if g.nlMutex == 0 then KBlocked else KStep(g.(nlMutex := g.nlMutex - 1), NClear1, Tau)
    case NClear1 => KStep(g.(nlFlag := 0), NWait1, Tau)
    case NWait1 =>
      if g.nlFlag != 1 then KBlocked else KStep(g, if g.skbGlobal.Some? then NPid(g.skbGlobal.value) else NFailed, Tau)
    case NPid(skb) => KStep(g, if skb.pid == g.pid then NCopy else NFailed, Tau)
    case NCopy => KStep(g.(actualSnc := snc), NSend, Store)
    case NSend => KStep(g.(queue := g.queue + [Packet(0, Address(ADDRESS))]), NClear2, Tau)
    case NClear2 => KStep(g.(nlFlag := 0), NWait2, Tau)
    case NWait2 =>
      if g.nlFlag != 1 then KBlocked else KStep(g, if g.skbGlobal.Some? then NAddr(g.skbGlobal.value) else NFailed, Tau)
    case NAddr(skb) => KStep(g, if skb.payload == Address(ADDRESS) then NUp else NFailed, Tau)
    case NUp => KStep(g.(nlMutex := g.nlMutex + 1), KOut, Return)
    case KOut => KBlocked
    case NFailed => KBlocked
  }

  /** One statement of the daemon's loop; serving the container is a single step here. */
  function Daemon(t: Transport, g: Globals, pc: DPc): (step: DStepResult) {
    match pc
    case DServing => DStep(g, AfterServing(t), End)
    // proc_read
    case DpDownRead => if g.readMutex == 0 then DBlocked else DStep(g.(readMutex := g.readMutex - 1), DpWait, Tau)
    case DpWait => if g.procFlag != 0 then DBlocked else DStep(g, DpUpRead, Begin)
    case DpUpRead => DStep(g.(readMutex := g.readMutex + 1), DServing, Tau)
    // proc_write
    case DpDownWrite => if g.writeMutex == 0 then DBlocked else DStep(g.(writeMutex := g.writeMutex - 1), DpSet, Tau)
    case DpSet => DStep(g.(procFlag := 2), DpUpWrite, Tau)
    case DpUpWrite => DStep(g.(writeMutex := g.writeMutex + 1), DpDownRead, Tau)
    // ioctl_callback
    case DiSet => DStep(g.(ioctlFlag := 1), DiUpInit, Tau)
    case DiUpInit => DStep(g.(initSem := g.initSem + 1), DiUpCallback, Tau)
    case DiUpCallback => DStep(g.(callbackSem := g.callbackSem + 1), DiDownCallback, Tau)
    case DiDownCallback =>
      if g.callbackSem == 0 then DBlocked else DStep(g.(callbackSem := g.callbackSem - 1), DiWait, Tau)
    case DiWait => if g.ioctlFlag != 0 then DBlocked else DStep(g, DServing, Begin)
    // sendmsg runs nl_data_ready in the kernel
    case DnWait(m) => if g.nlFlag != 0 then DBlocked else DStep(g, DnFree(m), Tau)
    case DnFree(m) => DStep(g.(skbGlobal := None), DnCopy(m), Tau)
    case DnCopy(m) => DStep(g.(skbGlobal := Some(Packet(g.pid, m))), DnFlag(m), Tau)
    case DnFlag(m) => DStep(g.(nlFlag := 1), if m.Init? then DnReceive else DnWait(Init), Tau)
    // recvmsg
    case DnReceive => if |g.queue| == 0 then DBlocked else DStep(g.(queue := g.queue[1..]), DServing, Begin)
  }

  /** Where the daemon goes when the container is served: fwrite, the next ioctl, or the acknowledging sendmsg. */
  function AfterServing(t: Transport): (d: DPc) {
    match t
    case PROCFS => DpDownWrite
    case IOCTL => DiSet
    case NL => DnWait(Address(ADDRESS))
  }

  // ----- procfs -----

  predicate ProcBusy(k: KPc) {
    k.PCopy? || k.PClear? || k.PWait? || k.PUp?
  }

  predicate DpRest(d: DPc) {
    d.DpUpWrite? || d.DpDownRead? || d.DpWait?
  }

  predicate ProcInv(g: Globals, k: KPc, d: DPc) {
    && (k.KOut? || k.PDown? || ProcBusy(k))
    && (DpRest(d) || d.DpUpRead? || d.DServing? || d.DpDownWrite? || d.DpSet?)
    && g.procMutex == (if ProcBusy(k) then 0 else 1)
    && g.readMutex == (if d.DpWait? || d.DpUpRead? then 0 else 1)
    && g.writeMutex == (if d.DpSet? || d.DpUpWrite? then 0 else 1)
    && (g.procFlag == 0 || g.procFlag == 2)
    && (g.procFlag == 0 ==> k.PWait?)
    && (g.procFlag == 2 ==> DpRest(d))
  }

  function ProcPhase(g: Globals, k: KPc, d: DPc): (phase: Phase) {
    if k.PClear? then Stored
    else if k.PUp? then Served
    else if !k.PWait? then Idle
    else if g.procFlag == 2 || d.DpDownWrite? || d.DpSet? then Served
    else if DpRest(d) then Stored
    else Serving
  }

  // ----- ioctl -----

  predicate IoctlBusy(k: KPc) {
    k.ICopy? || k.IClear? || k.IWait? || k.IUp?
  }

  /** The caller holds the token of `ioctl_init_mutex`, and no wake-up for it has come yet. */
  predicate HoldsToken(g: Globals, k: KPc) {
    k.IDownCall? || k.ICopy? || k.IClear? || (k.IWait? && g.ioctlFlag == 0)
  }

  /** The daemon has released the token and is bound for waiting until the flag is 0. */
  predicate Committed(d: DPc) {
    d.DiUpCallback? || d.DiDownCallback? || d.DiWait?
  }

  predicate IoctlInv(g: Globals, k: KPc, d: DPc) {
    && (k.KOut? || k.IDownInit? || k.IDownCall? || IoctlBusy(k))
    && (Committed(d) || d.DServing? || d.DiSet? || d.DiUpInit?)
    && g.ioctlMutex == (if IoctlBusy(k) then 0 else 1)
    && g.callbackSem == (if d.DiDownCallback? then 2 else 1)
    && (g.ioctlFlag == 0 || g.ioctlFlag == 1)
    // the token: in the semaphore or with the caller while the daemon is committed, with the caller while it is served
    && g.initSem <= 1
    && (g.ioctlFlag == 0 ==> k.IWait?)
    && (Committed(d) ==> g.initSem == (if HoldsToken(g, k) then 0 else 1))
    && (!Committed(d) ==> g.initSem == 0)
    && (HoldsToken(g, k) && !Committed(d) ==> g.ioctlFlag == 0 && (d.DServing? || d.DiSet?))
    && (d.DServing? ==> g.ioctlFlag == 0)
    && (d.DiUpInit? ==> g.ioctlFlag == 1)
  }

  function IoctlPhase(g: Globals, k: KPc, d: DPc): (phase: Phase) {
    if k.IClear? then Stored
    else if k.IUp? then Served
    else if !k.IWait? then Idle
    else if g.ioctlFlag == 1 || d.DiSet? then Served
    else if Committed(d) then Stored
    else Serving
  }

  // ----- netlink -----

  predicate NlBusy(k: KPc) {
    k.NClear1? || k.NWait1? || k.NPid? || k.NCopy? || k.NSend? || k.NClear2? || k.NWait2? || k.NAddr? || k.NUp?
  }

  /** The daemon is replacing the packet in the one-slot mailbox. */
  predicate Replacing(d: DPc) {
    d.DnFree? || d.DnCopy? || d.DnFlag?
  }

  predicate Acknowledging(d: DPc) {
    (d.DnWait? || Replacing(d)) && d.send == Address(ADDRESS)
  }

  predicate Announcing(d: DPc) {
    (d.DnWait? || Replacing(d)) && d.send == Init
  }

  predicate NlInv(g: Globals, k: KPc, d: DPc) {
    && (k.KOut? || k.NDown? || NlBusy(k))
    && (d.DnReceive? || d.DServing? || Acknowledging(d) || Announcing(d))
    && g.nlMutex == (if NlBusy(k) then 0 else 1)
    && (0 <= g.nlFlag <= 2)
    && (g.nlFlag == 0 ==> k.NWait1? || k.NWait2?)
    && (Replacing(d) ==> g.nlFlag == 0)
    && (d.DnCopy? ==> g.skbGlobal == None)
    && (d.DnFlag? ==> g.skbGlobal == Some(Packet(g.pid, d.send)))
    // before the first receive completes, the daemon is announcing itself
    && (k.KOut? || k.NDown? || k.NClear1? ==> d == DnWait(Init))
    && (k.NWait1? && g.nlFlag == 0 ==> Announcing(d))
    && (k.NWait1? && g.nlFlag != 0 ==> g.nlFlag == 1 && d.DnReceive? && g.skbGlobal == Some(Packet(g.pid, Init)))
    && (k.NPid? ==> g.skbGlobal == Some(k.skb) && k.skb == Packet(g.pid, Init))
    && (k.NPid? || k.NCopy? || k.NSend? ==> d.DnReceive? && g.skbGlobal == Some(Packet(g.pid, Init)))
    // between the receives, it takes the address and acknowledges it
    && (k.NClear2? ==> d.DnReceive? || d.DServing? || d == DnWait(Address(ADDRESS)))
    && (k.NWait2? && g.nlFlag == 0 ==> d.DnReceive? || d.DServing? || Acknowledging(d))
    && (k.NWait2? && g.nlFlag != 0 ==> g.nlFlag == 1 && d == DnWait(Init))
    && (k.NAddr? || k.NUp? ==> d == DnWait(Init))
    && ((k.NWait2? && g.nlFlag == 1) || k.NAddr? || k.NUp? ==> g.skbGlobal == Some(Packet(g.pid, Address(ADDRESS))))
    && (k.NAddr? ==> g.skbGlobal == Some(k.skb))
    && g.queue == if (k.NClear2? || k.NWait2?) && d.DnReceive? then [Packet(0, Address(ADDRESS))] else []
  }

  function NlPhase(g: Globals, k: KPc, d: DPc): (phase: Phase) {
    if k.NSend? then Stored
    else if k.NAddr? || k.NUp? then Served
    else if !(k.NClear2? || k.NWait2?) then Idle
    else if d.DnReceive? then Stored
    else if d.DServing? then Serving
    else Served
  }

  // ----- All three refine the abstract call -----

  predicate Inv(t: Transport, g: Globals, k: KPc, d: DPc) {
    match t
    case PROCFS => ProcInv(g, k, d)
    case IOCTL => IoctlInv(g, k, d)
    case NL => NlInv(g, k, d)
  }

  function PhaseOf(t: Transport, g: Globals, k: KPc, d: DPc): (phase: Phase) {
    match t
    case PROCFS => ProcPhase(g, k, d)
    case IOCTL => IoctlPhase(g, k, d)
    case NL => NlPhase(g, k, d)
  }

  /** The module as barracuda_start leaves it. */
  predicate Fresh(g: Globals) {
    && g.procFlag == 2 && g.procMutex == g.readMutex == g.writeMutex == 1
    && g.ioctlFlag == 1 && g.initSem == 0 && g.ioctlMutex == g.callbackSem == 1
    && g.nlFlag == 2 && g.nlMutex == 1 && g.skbGlobal == None && g.queue == []
  }

  lemma InvInitially(t: Transport, g: Globals)
    requires Fresh(g)
    ensures Inv(t, g, KOut, DaemonEntry(t)) && PhaseOf(t, g, KOut, DaemonEntry(t)) == Idle
  {}

  /** Entering call_usp. */
  lemma InvEnter(t: Transport, g: Globals, d: DPc)
    requires Inv(t, g, KOut, d)
    ensures Inv(t, g, Entry(t), d) && PhaseOf(t, g, Entry(t), d) == Idle == PhaseOf(t, g, KOut, d)
  {}

  lemma ProcCaller(g: Globals, k: KPc, d: DPc, snc: Container)
    requires ProcInv(g, k, d) && CallUsp(g, k, snc).KStep?
    ensures var s := CallUsp(g, k, snc);
            ProcInv(s.g, s.pc, d) && Cycle(ProcPhase(g, k, d), s.e, ProcPhase(s.g, s.pc, d))
  {}

  lemma ProcDaemon(g: Globals, k: KPc, d: DPc)
    requires ProcInv(g, k, d) && Daemon(PROCFS, g, d).DStep?
    ensures var s := Daemon(PROCFS, g, d);
            ProcInv(s.g, k, s.pc) && Cycle(ProcPhase(g, k, d), s.e, ProcPhase(s.g, k, s.pc))
  {}

  lemma IoctlCaller(g: Globals, k: KPc, d: DPc, snc: Container)
    requires IoctlInv(g, k, d) && CallUsp(g, k, snc).KStep?
    ensures var s := CallUsp(g, k, snc);
            IoctlInv(s.g, s.pc, d) && Cycle(IoctlPhase(g, k, d), s.e, IoctlPhase(s.g, s.pc, d))
  {}

  lemma IoctlDaemon(g: Globals, k: KPc, d: DPc)
    requires IoctlInv(g, k, d) && Daemon(IOCTL, g, d).DStep?
    ensures var s := Daemon(IOCTL, g, d);
            IoctlInv(s.g, k, s.pc) && Cycle(IoctlPhase(g, k, d), s.e, IoctlPhase(s.g, k, s.pc))
  {}

  lemma NlCaller(g: Globals, k: KPc, d: DPc, snc: Container)
    requires NlInv(g, k, d) && CallUsp(g, k, snc).KStep?
    ensures var s := CallUsp(g, k, snc);
            NlInv(s.g, s.pc, d) && Cycle(NlPhase(g, k, d), s.e, NlPhase(s.g, s.pc, d))
  {}

  lemma NlDaemon(g: Globals, k: KPc, d: DPc)
    requires NlInv(g, k, d) && Daemon(NL, g, d).DStep?
    ensures var s := Daemon(NL, g, d);
            NlInv(s.g, k, s.pc) && Cycle(NlPhase(g, k, d), s.e, NlPhase(s.g, k, s.pc))
  {}

  /** Every statement of the caller keeps the protocol invariant, and is its event of the abstract call. */
  lemma CallerSimulates(t: Transport, g: Globals, k: KPc, d: DPc, snc: Container)
    requires Inv(t, g, k, d) && CallUsp(g, k, snc).KStep?
    ensures var s := CallUsp(g, k, snc);
            Inv(t, s.g, s.pc, d) && Cycle(PhaseOf(t, g, k, d), s.e, PhaseOf(t, s.g, s.pc, d))
  {
    hide ProcInv, IoctlInv, NlInv, ProcPhase, IoctlPhase, NlPhase, CallUsp, Cycle;
    match t
    case PROCFS => ProcCaller(g, k, d, snc);
    case IOCTL => IoctlCaller(g, k, d, snc);
    case NL => NlCaller(g, k, d, snc);
  }

  /** So does every statement of the daemon. */
  lemma DaemonSimulates(t: Transport, g: Globals, k: KPc, d: DPc)
    requires Inv(t, g, k, d) && Daemon(t, g, d).DStep?
    ensures var s := Daemon(t, g, d);
            Inv(t, s.g, k, s.pc) && Cycle(PhaseOf(t, g, k, d), s.e, PhaseOf(t, s.g, k, s.pc))
  {
    hide ProcInv, IoctlInv, NlInv, ProcPhase, IoctlPhase, NlPhase, Daemon, Cycle;
    match t
    case PROCFS => ProcDaemon(g, k, d);
    case IOCTL => IoctlDaemon(g, k, d);
    case NL => NlDaemon(g, k, d);
  }

  // ----- What the invariants say -----

  /** procfs: between its read and its write the daemon finds the flag 0 and the caller waiting. */
  lemma ProcServingBlocksCaller(g: Globals, k: KPc, d: DPc)
    requires ProcInv(g, k, d) && (d.DpUpRead? || d.DServing? || d.DpDownWrite? || d.DpSet?)
    ensures g.procFlag == 0 && k == PWait && CallUsp(g, k, g.actualSnc) == KBlocked
  {}

  /** ioctl: the token counts the daemon's readiness; a caller that has it finds the daemon committed, and one that
      is woken was served. */
  lemma IoctlToken(g: Globals, k: KPc, d: DPc)
    requires IoctlInv(g, k, d)
    ensures g.initSem <= 1
    ensures k.IDownCall? || k.ICopy? || k.IClear? ==> Committed(d)
    ensures k.IWait? && CallUsp(g, k, g.actualSnc).KStep? ==> IoctlPhase(g, k, d) == Served
  {}

  /** netlink: the mailbox holds a packet that the caller has not taken. */
  predicate Outstanding(g: Globals, k: KPc) {
    (k.NWait1? || k.NWait2?) && g.nlFlag == 1
  }

  /** Only while the caller waits is the mailbox emptied or filled, never while it uses the packet it took. */
  lemma MailboxNotFreedInUse(g: Globals, k: KPc, d: DPc)
    requires NlInv(g, k, d) && Replacing(d)
    ensures (k.NWait1? || k.NWait2?) && CallUsp(g, k, g.actualSnc) == KBlocked
  {}

  /** The packet before is freed before another is copied into the slot. */
  lemma SlotEmptied(g: Globals, k: KPc, d: DPc)
    requires NlInv(g, k, d) && d.DnCopy?
    ensures g.skbGlobal == None && Daemon(NL, g, d).g.skbGlobal == Some(Packet(g.pid, d.send))
  {}

  /** A packet of a foreign sender, and a foreign address, end the call with an error and with call_usp_nl_mutex
      down. */
  lemma ForeignPacketFails(g: Globals, skb: Packet, snc: Container)
    ensures CallUsp(g, NPid(skb), snc).pc == NFailed <==> skb.pid != g.pid
    ensures CallUsp(g, NAddr(skb), snc).pc == NFailed <==> skb.payload != Address(ADDRESS)
    ensures CallUsp(g, NPid(skb), snc).g == g == CallUsp(g, NAddr(skb), snc).g
  {}

  /** The daemon deposits a packet only in an empty mailbox. */
  lemma DepositOnce(g: Globals, k: KPc, d: DPc)
    requires NlInv(g, k, d) && Daemon(NL, g, d).DStep?
    ensures Outstanding(Daemon(NL, g, d).g, k) <==> Outstanding(g, k) || d.DnFlag?
    ensures d.DnFlag? ==> !Outstanding(g, k) && Daemon(NL, g, d).g.skbGlobal == Some(Packet(g.pid, d.send))
  {}

  /** The caller takes each deposited packet once: "init" at its first receive, its acknowledgement at the second. */
  lemma TakeOnce(g: Globals, k: KPc, d: DPc, snc: Container)
    requires NlInv(g, k, d) && CallUsp(g, k, snc).KStep?
    ensures Outstanding(g, k) <==> k.NWait1? || k.NWait2?
    ensures !Outstanding(CallUsp(g, k, snc).g, CallUsp(g, k, snc).pc)
    ensures k.NWait1? ==> CallUsp(g, k, snc).pc == NPid(Packet(g.pid, Init))
    ensures k.NWait2? ==> CallUsp(g, k, snc).pc == NAddr(Packet(g.pid, Address(ADDRESS)))
    ensures CallUsp(g, k, snc).pc != NFailed
  {}

  // ----- Progress -----

  /** The steps the caller takes until it returns. */
  function CallerLeft(k: KPc): (left: nat) {
    match k
    case KOut => 0 case NFailed => 0
    case PDown => 5 case PCopy => 4 case PClear => 3 case PWait => 2 case PUp => 1
    case IDownInit => 6 case IDownCall => 5 case ICopy => 4 case IClear => 3 case IWait => 2 case IUp => 1
    case NDown => 10 case NClear1 => 9 case NWait1 => 8 case NPid(_) => 7 case NCopy => 6
    case NSend => 5 case NClear2 => 4 case NWait2 => 3 case NAddr(_) => 2 case NUp => 1
  }

  /** The steps of the daemon until it waits for the request after this one. */
  function DaemonLeft(t: Transport, g: Globals, k: KPc, d: DPc): (left: nat) {
    var pending := PhaseOf(t, g, k, d).Idle? || PhaseOf(t, g, k, d).Stored?;
    match d
    case DServing => 5
    case DpUpRead => 6 case DpDownWrite => 4 case DpSet => 3
    case DpUpWrite => if pending then 9 else 2
    case DpDownRead => if pending then 8 else 1
    case DpWait => if pending then 7 else 0
    case DiSet => if pending then 10 else 4
    case DiUpInit => if pending then 9 else 3
    case DiUpCallback => if pending then 8 else 2
    case DiDownCallback => if pending then 7 else 1
    case DiWait => if pending then 6 else 0
    case DnWait(m) => if m.Init? then (if pending then 10 else 0) else 4
    case DnFree(m) => if m.Init? then 9 else 3
    case DnCopy(m) => if m.Init? then 8 else 2
    case DnFlag(m) => if m.Init? then 7 else 1
    case DnReceive => 6
  }

  function Rank(t: Transport, g: Globals, k: KPc, d: DPc): (rank: nat) {
    CallerLeft(k) + DaemonLeft(t, g, k, d)
  }

  /** While a request is pending, the caller or the daemon can move. */
  lemma SomeoneMoves(t: Transport, g: Globals, k: KPc, d: DPc, snc: Container)
    requires Inv(t, g, k, d) && k != KOut
    ensures CallUsp(g, k, snc).KStep? || Daemon(t, g, d).DStep?
  {
    match t
    case PROCFS =>
    case IOCTL =>
    case NL =>
  }

  lemma ProcRank(g: Globals, k: KPc, d: DPc, snc: Container)
    requires ProcInv(g, k, d)
    ensures var s := CallUsp(g, k, snc); s.KStep? && s.e != Return ==>
            Rank(PROCFS, s.g, s.pc, d) == Rank(PROCFS, g, k, d) - 1
    ensures var s := Daemon(PROCFS, g, d); s.DStep? ==> Rank(PROCFS, s.g, k, s.pc) == Rank(PROCFS, g, k, d) - 1
  {}

  lemma IoctlRank(g: Globals, k: KPc, d: DPc, snc: Container)
    requires IoctlInv(g, k, d)
    ensures var s := CallUsp(g, k, snc); s.KStep? && s.e != Return ==>
            Rank(IOCTL, s.g, s.pc, d) == Rank(IOCTL, g, k, d) - 1
    ensures var s := Daemon(IOCTL, g, d); s.DStep? ==> Rank(IOCTL, s.g, k, s.pc) == Rank(IOCTL, g, k, d) - 1
  {}

  lemma NlCallerRank(g: Globals, k: KPc, d: DPc, snc: Container)
    requires NlInv(g, k, d)
    ensures var s := CallUsp(g, k, snc); s.KStep? && s.e != Return ==> Rank(NL, s.g, s.pc, d) == Rank(NL, g, k, d) - 1
  {}

  lemma NlDaemonRank(g: Globals, k: KPc, d: DPc)
    requires NlInv(g, k, d)
    ensures var s := Daemon(NL, g, d); s.DStep? ==> Rank(NL, s.g, k, s.pc) == Rank(NL, g, k, d) - 1
  {}

  /** And every step of either brings the return exactly one step nearer, so any schedule returns. */
  lemma EveryStepCounts(t: Transport, g: Globals, k: KPc, d: DPc, snc: Container)
    requires Inv(t, g, k, d)
    ensures var s := CallUsp(g, k, snc); s.KStep? && s.e != Return ==> Rank(t, s.g, s.pc, d) == Rank(t, g, k, d) - 1
    ensures var s := Daemon(t, g, d); s.DStep? ==> Rank(t, s.g, k, s.pc) == Rank(t, g, k, d) - 1
    ensures Rank(t, g, k, d) <= 20
  {
    hide ProcInv, IoctlInv, NlInv, CallUsp, Daemon;
    match t
    case PROCFS => ProcRank(g, k, d, snc);
    case IOCTL => IoctlRank(g, k, d, snc);
    case NL =>
      NlCallerRank(g, k, d, snc);
      NlDaemonRank(g, k, d);
  }
}
