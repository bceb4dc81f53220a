/** For each transport and each marshalling there are runs that reach a call in progress with the daemon running. */
module SampleRuns {
  import opened Rendezvous
  import opened System
  import opened Runs

  function Last(r: Run): (s: State)
    requires |r.states| > 0
  {
    r.states[|r.states| - 1]
  }

  lemma Extend(r: Run, l: Label, s': State) returns (r': Run)
    requires IsRun(r) && Step(Last(r), l, s')
    ensures IsRun(r') && |r'.states| > 0 && Last(r') == s'
  {
    hide Step, Initial;
    r' := Run(r.states + [s'], r.labels + [l]);
    forall i | 0 <= i < |r'.labels|
      ensures Step(r'.states[i], r'.labels[i], r'.states[i + 1])
    {
      if i < |r.labels| {
        assert Step(r.states[i], r.labels[i], r.states[i + 1]);
      }
    }
  }

  /** A writer's next statement. */
  lemma Write(r: Run, id: nat) returns (r': Run)
    requires IsRun(r) && |r.states| > 0 && id in Last(r).writers && ConfWrite(Last(r).g, Last(r).writers[id]).WStep?
    ensures IsRun(r') && |r'.states| > 0
    ensures var s, w := Last(r), ConfWrite(Last(r).g, Last(r).writers[id]);
            Last(r') == s.(g := w.g, writers := s.writers[id := w.w])
  {
    hide IsRun;
    var s := Last(r);
    var w := ConfWrite(s.g, s.writers[id]);
    r' := Extend(r, WriterStep(id), s.(g := w.g, writers := s.writers[id := w.w]));
  }

  /** The module as loaded, with three buffers of eight bytes. */
  function Loaded(wide: bool, copy: bool): (s: State)
    ensures Initial(s) && s.wide == wide && s.copy == copy && Present(s.mem, Small(wide))
  {
    var g := Globals(0, 1, 0, false, None, Container(0, 0, 0), 2, 1, 1, 1, 1, 0, 1, 1, 2, 1, None, []);
    var buffer: seq<bv8> := [0, 0, 0, 0, 0, 0, 0, 0];
    State(g, wide, copy, map[], map[0 := buffer, 1 := buffer, 2 := buffer], map[], NotStarted, map[])
  }

  function Small(wide: bool): (req: Request)
    ensures ValidRequest(req)
  {
    Request(wide, 3, 8, [0, 1, 2])
  }

  /** Registering the daemon's pid. */
  lemma Registered(wide: bool, copy: bool) returns (r: Run)
    ensures IsRun(r) && |r.states| > 0
    ensures var s := Last(r);
            && s.g == Loaded(wide, copy).g.(pid := 7) && s.wide == wide && s.mem == Loaded(wide, copy).mem &&
                s.copy == copy
            && s.callers == map[] && s.daemon == NotStarted && s.heap == map[] && 1 !in s.writers && 2 !in s.writers
  {
    hide IsRun;
    var s := Loaded(wide, copy);
    r := Run([s], []);
    Single(s);
    r := Extend(r, WriterArrive(0, SetPid(7)), s.(writers := map[0 := AtConf(SetPid(7))]));
    r := Write(r, 0);
    r := Write(r, 0);
    r := Write(r, 0);
  }

  lemma Single(s: State)
    requires Initial(s)
    ensures IsRun(Run([s], []))
  {}

  /** A writer brings a connection, and takes conf_mutex. */
  lemma Choosing(t: Transport, wide: bool, copy: bool) returns (r: Run)
    ensures IsRun(r) && |r.states| > 0
    ensures var s := Last(r);
            && s.g == Loaded(wide, copy).g.(pid := 7, confMutex := 0)
            && s.wide == wide && s.mem == Loaded(wide, copy).mem && s.copy == copy
            && s.callers == map[] && s.daemon == NotStarted && s.heap == map[]
            && 1 in s.writers && s.writers[1] == SettingUsp(t) && 2 !in s.writers
  {
    hide IsRun;
    r := Registered(wide, copy);
    var s := Last(r);
    r := Extend(r, WriterArrive(1, SetCon(t)), s.(writers := s.writers[1 := AtConf(SetCon(t))]));
    r := Write(r, 1);
    r := Write(r, 1);
  }

  /** Its connection is set, and the gate opened. */
  lemma Connected(t: Transport, wide: bool, copy: bool) returns (r: Run)
    ensures IsRun(r) && |r.states| > 0
    ensures var s := Last(r);
            && s.g == Loaded(wide, copy).g.(pid := 7, gate := 1, confMutex := 0, configured := true, callUsp := Some(t))
            && s.wide == wide && s.mem == Loaded(wide, copy).mem && s.copy == copy
            && s.callers == map[] && s.daemon == NotStarted && s.heap == map[]
            && 1 in s.writers && s.writers[1] == UppingConf && 2 !in s.writers
  {
    hide IsRun;
    r := Choosing(t, wide, copy);
    r := Write(r, 1);
    r := Write(r, 1);
    r := Write(r, 1);
  }

  /** A caller in its call, and the daemon running. */
  lemma InProgress(t: Transport, wide: bool, copy: bool) returns (r: Run)
    ensures IsRun(r) && |r.states| > 0
    ensures var s := Last(r);
            && s.g.callUsp == Some(t) && s.copy == copy && s.wide == wide && s.daemon.Running?
            && 0 in s.callers && s.callers[0].pc.InCall?
  {
    hide IsRun, ValidRequest, Present;
    r := Connected(t, wide, copy);
    var s := Last(r);
    s := s.(daemon := Running(DaemonEntry(t), Fetch));
    r := Extend(r, DaemonStart, s);
    var c := Caller(Small(wide), AtGate, Container(0, 0, 0), map[]);
    s := s.(callers := map[0 := c]);
    r := Extend(r, Arrive(0, Small(wide)), s);
    c := c.(pc := Packing, entry := s.mem);
    s := s.(g := s.g.(gate := 0), callers := map[0 := c]);
    assert map[0 := Caller(Small(wide), AtGate, Container(0, 0, 0), map[])][0 := c] == map[0 := c];
    r := Extend(r, CallerStep(0, 0), s);
    c := c.(snc := Container(3, 8, 0), pc := InCall(Entry(t)));
    var before := s;
    s := s.(heap := s.heap[0 := Small(wide).ptrs], callers := before.callers[0 := c]);
    r := Extend(r, CallerStep(0, 0), s);
  }

  /** A rejected write to the module just loaded: conf_mutex is down and the gate shut, for ever. */
  lemma ShutForGood(wide: bool, copy: bool) returns (r: Run)
    ensures IsRun(r) && |r.states| > 0
    ensures var s := Last(r);
            && 0 in s.writers && s.writers[0] == LeftHolding && s.g.confMutex == 0 && s.g.gate == 0 && !s.g.configured
  {
    hide IsRun;
    var s := Loaded(wide, copy);
    r := Run([s], []);
    Single(s);
    r := Extend(r, WriterArrive(0, Rejected), s.(writers := map[0 := AtConf(Rejected)]));
    r := Write(r, 0);
    r := Write(r, 0);
  }

  /** A second write after the configuration: conf_mutex stays down, the gate has been opened. */
  lemma RepeatedWrite(t: Transport, wide: bool, copy: bool) returns (r: Run)
    ensures IsRun(r) && |r.states| > 0
    ensures var s := Last(r);
            && 2 in s.writers && s.writers[2] == LeftHolding && s.g.confMutex == 0 && s.g.gate == 1 && s.g.configured
  {
    hide IsRun;
    r := Connected(t, wide, copy);
    r := Write(r, 1);
    var s := Last(r);
    r := Extend(r, WriterArrive(2, SetPid(1234)), s.(writers := s.writers[2 := AtConf(SetPid(1234))]));
    r := Write(r, 2);
    r := Write(r, 2);
  }

  // ----- Nothing is kept from happening -----

  /** Any number of callers may be there: another one arrives in any state. */
  lemma CallersArrive(s: State, id: nat, req: Request) returns (s': State)
    requires id !in s.callers && ValidRequest(req) && Present(s.mem, req) && req.wide == s.wide
    ensures Step(s, Arrive(id, req), s') && s'.callers.Keys == s.callers.Keys + {id} && s'.callers[id].pc == AtGate
  {
    hide ValidRequest, Present;
    s' := s.(callers := s.callers[id := Caller(req, AtGate, Container(0, 0, 0), map[])]);
  }

  /** So does any number of writers, with any command. */
  lemma WritersArrive(s: State, id: nat, cmd: Command) returns (s': State)
    requires id !in s.writers
    ensures Step(s, WriterArrive(id, cmd), s') && s'.writers.Keys == s.writers.Keys + {id} &&
            s'.writers[id] == AtConf(cmd)
  {
    s' := s.(writers := s.writers[id := AtConf(cmd)]);
  }

  /** Whoever waits at an open gate may pass it. */
  lemma OpenGatePasses(s: State, id: nat) returns (s': State)
    requires id in s.callers && s.callers[id].pc == AtGate && s.g.gate > 0
    ensures Step(s, CallerStep(id, 0), s') && id in s'.callers && s'.callers[id].pc == Packing
  {
    var c := s.callers[id];
    s' := s.(g := s.g.(gate := s.g.gate - 1), callers := s.callers[id := c.(pc := Packing, entry := s.mem)]);
  }

  /** Any free block may be the pointer array of pack_smc, and call_usp is entered with it. */
  lemma AnyBlockPacks(s: State, id: nat, block: nat) returns (s': State)
    requires id in s.callers && s.callers[id].pc == Packing && s.g.callUsp.Some? && block !in s.heap
    ensures Step(s, CallerStep(id, block), s') && id in s'.callers && s'.callers[id].snc.ptrs == block
    ensures block in s'.heap && s'.heap[block] == s.callers[id].req.ptrs
    ensures s'.callers[id].pc == InCall(Entry(s.g.callUsp.value))
  {
    var c := s.callers[id];
    var snc := Container(c.req.disks, c.req.bytes, block);
    c := c.(snc := snc, pc := InCall(Entry(s.g.callUsp.value)));
    s' := s.(heap := s.heap[block := c.req.ptrs], callers := s.callers[id := c]);
  }

  /** Outside the buffers of a call in progress the memory may change at will. */
  lemma MemoryChanges(s: State, mem: Memory) returns (s': State)
    requires mem.Keys == s.mem.Keys && forall p :: p in mem ==> |mem[p]| == |s.mem[p]|
    requires forall id :: id in s.callers && Inside(s.callers[id].pc) ==> Same(mem, s.mem, s.callers[id].req)
    ensures Step(s, Elsewhere(mem), s') && s'.mem == mem
  {
    hide Inside, Same;
    s' := s.(mem := mem);
  }

  /** Requests may be as large as the daemon's pointers and an int offset allow. */
  lemma LargestRequest()
    ensures ValidRequest(Request(true, 255, 0x7fff_fff8, seq(255, i => i)))
    ensures ValidRequest(Request(false, 255, 0x7fff_fffc, seq(255, i => i)))
  {}

  /** A call through an unset call_usp would crash; that no run does is a result. */
  lemma UnsetCallCrashes(s: State, id: nat, block: nat, s': State)
    requires id in s.callers && s.callers[id].pc == Packing && s.g.callUsp == None && CallerMoves(s, id, block, s')
    ensures s'.callers[id].pc == Crashed
  {}

  /** So would a pointer array that was freed, in every step of the service that uses one. */
  lemma FreedArrayFaults(copy: bool, g: Globals, heap: map<nat, seq<Ptr>>, mem: Memory, job: Job)
    requires g.actualSnc.ptrs !in heap
    requires job.WriteP? || job.WriteQ? || (job.Map? && |job.mapped| < job.disks) ||
             (job.Read? && |job.local| < job.disks - 2)
    ensures Serve(copy, g, heap, mem, job) == ServeResult(Faulted, mem)
  {}
}
