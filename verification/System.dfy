/** The whole connector: any number of kernel callers and configuration writers, the daemon, and the memory. */
module System {
  import opened Syndrome
  import opened Rendezvous
  import opened Words

  type Ptr = nat
  type Memory = map<Ptr, seq<bv8>>

  /** The arguments of gen_syndrome, and whether the machine they are given on has words of eight bytes or of four. */
  datatype Request = Request(wide: bool, disks: nat, bytes: nat, ptrs: seq<Ptr>)

  // ----- The buffers of a request -----

  /** The encoders' and the connector's assumptions: at most the 255 pointers the daemon holds, whole words, an int
      offset, and check disks that are no other disk. */
  predicate ValidRequest(r: Request) {
    && 3 <= r.disks == |r.ptrs| <= 255
    && r.bytes % NSize(r.wide) == 0 && r.bytes < 0x8000_0000
    && r.ptrs[r.disks - 2] != r.ptrs[r.disks - 1]
    && forall z :: 0 <= z < r.disks - 2 ==> r.ptrs[z] != r.ptrs[r.disks - 2] && r.ptrs[z] != r.ptrs[r.disks - 1]
  }

  predicate Present(mem: Memory, r: Request) {
    forall z :: 0 <= z < |r.ptrs| ==> r.ptrs[z] in mem && r.bytes <= |mem[r.ptrs[z]]|
  }

  /** The two memories hold the same in the buffers of the request. */
  predicate Same(mem: Memory, before: Memory, r: Request) {
    forall z :: 0 <= z < |r.ptrs| ==> r.ptrs[z] in mem && r.ptrs[z] in before && mem[r.ptrs[z]] == before[r.ptrs[z]]
  }

  /** The first `bytes` bytes of the first n buffers. */
  function Data(mem: Memory, r: Request, n: nat): (data: seq<seq<bv8>>)
    requires n <= |r.ptrs| && Present(mem, r)
    ensures |data| == n
    ensures forall z :: 0 <= z < n ==> data[z] == mem[r.ptrs[z]][..r.bytes]
  {
    seq(n, z requires 0 <= z < n => mem[r.ptrs[z]][..r.bytes])
  }

  predicate Rectangular(data: seq<seq<bv8>>, bytes: nat) {
    forall z :: 0 <= z < |data| ==> |data[z]| == bytes
  }

  /** The P and the Q buffer of a stripe. */
  function PBuffer(data: seq<seq<bv8>>, bytes: nat): (p: seq<bv8>)
    requires Rectangular(data, bytes)
    ensures |p| == bytes
  {
    seq(bytes, o requires 0 <= o < bytes => PByte(Column(data, o)))
  }

  function QBuffer(data: seq<seq<bv8>>, bytes: nat): (q: seq<bv8>)
    requires Rectangular(data, bytes)
    ensures |q| == bytes
  {
    seq(bytes, o requires 0 <= o < bytes => QByte(Column(data, o)))
  }

  function Overwrite(mem: Memory, p: Ptr, content: seq<bv8>): (after: Memory)
    requires p in mem && |content| <= |mem[p]|
  {
    mem[p := content + mem[p][|content|..]]
  }

  /** What a call is for: the check disks hold P and Q of the caller's data, all else in its buffers is as before. */
  predicate Result(mem: Memory, entry: Memory, r: Request)
    requires ValidRequest(r)
  {
    && Present(mem, r) && Present(entry, r)
    && (forall z :: 0 <= z < r.disks - 2 ==> mem[r.ptrs[z]] == entry[r.ptrs[z]])
    && (var data := Data(entry, r, r.disks - 2);
        var p, q := r.ptrs[r.disks - 2], r.ptrs[r.disks - 1];
        && mem[p] == PBuffer(data, r.bytes) + entry[p][r.bytes..]
        && mem[q] == QBuffer(data, r.bytes) + entry[q][r.bytes..])
  }

  // ----- Threads -----

  /** A kernel caller inside raid6_cuda_gen_syndrome.  `entry` is the memory when it passed the gate. */
  datatype CallerPc = AtGate | Packing | InCall(k: KPc) | Killing | Upping | Returned | Crashed
  datatype Caller = Caller(req: Request, pc: CallerPc, snc: Container, entry: Memory)

  /** The daemon between two container services, or within one: its pass over the disks. */
  datatype Job =
    | Fetch
    | Map(disks: nat, bytes: nat, mapped: seq<Ptr>)
    | Read(disks: nat, bytes: nat, local: seq<seq<bv8>>)
    | WriteP(disks: nat, bytes: nat, p: seq<bv8>, q: seq<bv8>)
    | WriteQ(disks: nat, bytes: nat, q: seq<bv8>)
    | Finished
    | Faulted

  datatype DaemonState = NotStarted | Running(pc: DPc, job: Job)

  /** A write to the configuration file: what it asks for, and how far it got. */
  datatype Command = SetPid(pid: nat) | SetCon(t: Transport) | Other | Rejected
  datatype Writer =
    | AtConf(cmd: Command) | Checking(cmd: Command) | SettingUsp(t: Transport) | SettingConfigured
    | UppingGate | UppingConf | Left | LeftHolding

  datatype State = State(
    g: Globals, wide: bool, copy: bool, heap: map<nat, seq<Ptr>>, mem: Memory,
    callers: map<nat, Caller>, daemon: DaemonState, writers: map<nat, Writer>)

  datatype Label =
    | Arrive(id: nat, req: Request) | CallerStep(id: nat, block: nat)
    | DaemonStart | DaemonStep
    | WriterArrive(id: nat, cmd: Command) | WriterStep(id: nat)
    | Elsewhere(mem: Memory)

  // ----- Serving a container -----

  /** `actual_snc->ptrs[i]`: a pointer array that was freed, or a bad index, is a fault. */
  predicate Readable(g: Globals, heap: map<nat, seq<Ptr>>, mem: Memory, i: int, bytes: nat) {
    && g.actualSnc.ptrs in heap && 0 <= i < |heap[g.actualSnc.ptrs]|
    && heap[g.actualSnc.ptrs][i] in mem && bytes <= |mem[heap[g.actualSnc.ptrs][i]]|
  }

  /** The first bytes of the mapped data disks. */
  function MappedData(mem: Memory, mapped: seq<Ptr>, bytes: nat): (data: seq<seq<bv8>>)
    requires |mapped| >= 2 && forall z :: 0 <= z < |mapped| ==> mapped[z] in mem && bytes <= |mem[mapped[z]]|
    ensures Rectangular(data, bytes)
  {
    seq(|mapped| - 2, z requires 0 <= z < |mapped| - 2 => mem[mapped[z]][..bytes])
  }

  datatype ServeResult = ServeResult(job: Job, mem: Memory)

  /** One step of get_act_syndrome_block / gen_syndrome, or of their copying variants. */
  function Serve(copy: bool, g: Globals, heap: map<nat, seq<Ptr>>, mem: Memory, job: Job): (next: ServeResult) {
    match job
    case Fetch =>
      var disks, bytes := g.actualSnc.disks, g.actualSnc.bytes;
      ServeResult(if disks < 3 then Faulted else if copy then Read(disks, bytes, []) else Map(disks, bytes, []), mem)
    case Map(disks, bytes, mapped) =>
      if |mapped| < disks then
        if Readable(g, heap, mem, |mapped|, bytes)
        then ServeResult(Map(disks, bytes, mapped + [heap[g.actualSnc.ptrs][|mapped|]]), mem)
        else ServeResult(Faulted, mem)
      else if |mapped| == disks >= 3 && (forall z :: 0 <= z < |mapped| ==>
          mapped[z] in mem && bytes <= |mem[mapped[z]]|) then
        // the encoder, in place
        var data := MappedData(mem, mapped, bytes);
        var mem1 := Overwrite(mem, mapped[disks - 2], PBuffer(data, bytes));
        ServeResult(Finished, Overwrite(mem1, mapped[disks - 1], QBuffer(data, bytes)))
      else ServeResult(Faulted, mem)
    case Read(disks, bytes, local) =>
      if |local| < disks - 2 then
        if Readable(g, heap, mem, |local|, bytes)
        then ServeResult(Read(disks, bytes, local + [mem[heap[g.actualSnc.ptrs][|local|]][..bytes]]), mem)
        else ServeResult(Faulted, mem)
      else if Rectangular(local, bytes) then
        // the encoder, on the copies
        ServeResult(WriteP(disks, bytes, PBuffer(local, bytes), QBuffer(local, bytes)), mem)
      else ServeResult(Faulted, mem)
    case WriteP(disks, bytes, p, q) =>
      if Readable(g, heap, mem, disks - 2, |p|)
      then ServeResult(WriteQ(disks, bytes, q), Overwrite(mem, heap[g.actualSnc.ptrs][disks - 2], p))
      else ServeResult(Faulted, mem)
    case WriteQ(disks, bytes, q) =>
      if Readable(g, heap, mem, disks - 1, |q|)
      then ServeResult(Finished, Overwrite(mem, heap[g.actualSnc.ptrs][disks - 1], q))
      else ServeResult(Faulted, mem)
    case Finished => ServeResult(Finished, mem)
    case Faulted => ServeResult(Faulted, mem)
  }

  // ----- Steps -----

  /** down( &gen_syndrome_mutex ) */
  predicate PassesGate(s: State, id: nat, c: Caller, s': State) {
    && s.g.gate > 0
    && s' == s.(g := s.g.(gate := s.g.gate - 1), callers := s.callers[id := c.(pc := Packing, entry := s.mem)])
  }

  /** pack_smc: the pointer array is allocated and filled.  A call through an unset `call_usp` is a crash. */
  predicate Packs(s: State, id: nat, c: Caller, block: nat, s': State) {
    && block !in s.heap
    && var snc := Container(c.req.disks, c.req.bytes, block);
       s' == s.(heap := s.heap[block := c.req.ptrs],
                callers := s.callers[id := c.(snc := snc, pc := if s.g.callUsp.Some?
                    then InCall(Entry(s.g.callUsp.value)) else Crashed)])
  }

  predicate Calls(s: State, id: nat, c: Caller, k: KPc, s': State) {
    var r := CallUsp(s.g, k, c.snc);
    r.KStep? && s' == s.(g := r.g, callers := s.callers[id := c.(pc := if r.e == Return then Killing
        else InCall(r.pc))])
  }

  /** kill_smc */
  predicate Kills(s: State, id: nat, c: Caller, s': State) {
    s' == s.(heap := s.heap - {c.snc.ptrs}, callers := s.callers[id := c.(pc := Upping)])
  }

  /** up( &gen_syndrome_mutex ) */
  predicate Leaves(s: State, id: nat, c: Caller, s': State) {
    s' == s.(g := s.g.(gate := s.g.gate + 1), callers := s.callers[id := c.(pc := Returned)])
  }

  predicate CallerMoves(s: State, id: nat, block: nat, s': State) {
    && id in s.callers
    && var c := s.callers[id];
       match c.pc
       case AtGate => PassesGate(s, id, c, s')
       case Packing => Packs(s, id, c, block, s')
       case InCall(k) => Calls(s, id, c, k, s')
       case Killing => Kills(s, id, c, s')
       case Upping => Leaves(s, id, c, s')
       case Returned => false
       case Crashed => false
  }

  predicate Serves(s: State, s': State) {
    && s.daemon.Running? && s.g.callUsp.Some? && s.daemon.pc == DServing && s.daemon.job != Finished
    && var r := Serve(s.copy, s.g, s.heap, s.mem, s.daemon.job);
       s' == s.(mem := r.mem, daemon := Running(DServing, r.job))
  }

  predicate Talks(s: State, s': State) {
    && s.daemon.Running? && s.g.callUsp.Some? && (s.daemon.pc == DServing ==> s.daemon.job == Finished)
    && var r := Daemon(s.g.callUsp.value, s.g, s.daemon.pc);
       r.DStep? && s' == s.(g := r.g, daemon := Running(r.pc, Fetch))
  }

  predicate DaemonMoves(s: State, s': State) {
    Serves(s, s') || Talks(s, s')
  }

  datatype WStepResult = WBlocked | WStep(g: Globals, w: Writer)

  /** One statement of conf_write. */
  function ConfWrite(g: Globals, w: Writer): (step: WStepResult) {
    match w
    case AtConf(cmd) =>
      if g.confMutex == 0 then WBlocked else WStep(g.(confMutex := g.confMutex - 1), Checking(cmd))
    case Checking(cmd) =>
      // these returns leave conf_mutex down
      if g.configured || cmd == Rejected then WStep(g, LeftHolding)
      else if g.pid == 0 then WStep(g.(pid := if cmd.SetPid? then cmd.pid else 0), UppingConf)
      else WStep(g, if cmd.SetCon? then SettingUsp(cmd.t) else UppingConf)
    case SettingUsp(t) => WStep(g.(callUsp := Some(t)), SettingConfigured)
    case SettingConfigured => WStep(g.(configured := true), UppingGate)
    case UppingGate => WStep(g.(gate := g.gate + 1), UppingConf)
    case UppingConf => WStep(g.(confMutex := g.confMutex + 1), Left)
    case Left => WBlocked
    case LeftHolding => WBlocked
  }

  predicate WriterMoves(s: State, id: nat, s': State) {
    && id in s.writers
    && var r := ConfWrite(s.g, s.writers[id]);
       r.WStep? && s' == s.(g := r.g, writers := s.writers[id := r.w])
  }

  /** Inside the gate: between down and up of gen_syndrome_mutex. */
  predicate Inside(pc: CallerPc) {
    pc.Packing? || pc.InCall? || pc.Killing? || pc.Upping? || pc.Crashed?
  }

  /** Other parties may write any buffer but those of a call in progress; buffers keep their sizes. */
  predicate ElsewhereMoves(s: State, mem: Memory, s': State) {
    && mem.Keys == s.mem.Keys && (forall p :: p in mem ==> |mem[p]| == |s.mem[p]|)
    && (forall id :: id in s.callers && Inside(s.callers[id].pc) ==> Same(mem, s.mem, s.callers[id].req))
    && s' == s.(mem := mem)
  }

  predicate Step(s: State, l: Label, s': State) {
    match l
    case Arrive(id, req) =>
      id !in s.callers && req.wide == s.wide && ValidRequest(req) && Present(s.mem, req)
      && s' == s.(callers := s.callers[id := Caller(req, AtGate, Container(0, 0, 0), map[])])
    case CallerStep(id, block) => CallerMoves(s, id, block, s')
    case DaemonStart =>
      s.daemon == NotStarted && s.g.configured && s.g.callUsp.Some?
      && s' == s.(daemon := Running(DaemonEntry(s.g.callUsp.value), Fetch))
    case DaemonStep => DaemonMoves(s, s')
    case WriterArrive(id, cmd) => id !in s.writers && s' == s.(writers := s.writers[id := AtConf(cmd)])
    case WriterStep(id) => WriterMoves(s, id, s')
    case Elsewhere(mem) => ElsewhereMoves(s, mem, s')
  }

  /** The module after barracuda_start. */
  predicate Initial(s: State) {
    && Fresh(s.g) && s.g.gate == 0 && s.g.confMutex == 1 && s.g.pid == 0 && !s.g.configured && s.g.callUsp == None
    && s.heap == map[] && s.callers == map[] && s.daemon == NotStarted && s.writers == map[]
  }
}
