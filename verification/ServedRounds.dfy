/** The daemon's round on the real buffers does what the state machine's service does on its memory. */
module ServedRounds {
  import opened Words
  import opened Syndrome
  import opened Rendezvous
  import opened System
  import opened Service
  import opened Marshal

  /** At most n steps of the service, from the given job on. */
  function ServeRound(copy: bool, g: Globals, heap: map<nat, seq<Ptr>>, mem: Memory, job: Job,
      n: nat): (next: ServeResult)
    decreases n
  {
    if n == 0 || job == Finished then ServeResult(job, mem)
    else
      var s := Serve(copy, g, heap, mem, job);
      ServeRound(copy, g, heap, s.mem, s.job, n - 1)
  }

  /** The round ends, with the result that the encoder is for. */
  lemma {:induction false} RoundResult(copy: bool, g: Globals, heap: map<nat, seq<Ptr>>, mem: Memory, job: Job,
      entry: Memory, r: Request, n: nat)
    requires ValidRequest(r) && JobOk(mem, entry, r, job) && ContainerOf(g.actualSnc, heap, r) && JobLeft(job) <= n
    ensures var s := ServeRound(copy, g, heap, mem, job, n);
            s.job == Finished && SameShape(mem, s.mem) && Result(s.mem, entry, r)
    decreases n
  {
    hide Serve, JobOk, Result, SameShape, ValidRequest, ContainerOf, JobLeft;
    SameShapeSelf(mem);
    if job == Finished {
      FinishedResult(mem, entry, r);
    } else {
      var s := Serve(copy, g, heap, mem, job);
      ServeStep(copy, g, heap, mem, job, entry, r);
      ServeProgress(copy, g, heap, mem, job, entry, r);
      RoundResult(copy, g, heap, s.mem, s.job, entry, r, n - 1);
      ShapeTransitive(mem, s.mem, ServeRound(copy, g, heap, mem, job, n).mem) by { OpenShapes(mem, s.mem); }
    }
  }

  lemma FinishedResult(mem: Memory, entry: Memory, r: Request)
    requires ValidRequest(r) && JobOk(mem, entry, r, Finished)
    ensures Result(mem, entry, r)
  {}

  lemma OpenShapes(m: Memory, m': Memory)
    requires SameShape(m, m')
    ensures m.Keys == m'.Keys
  {}

  /** The memory holds, under the pointers of the request, what the buffers of the container hold. */
  ghost predicate Represents(snc: ActualSnc, mem: Memory, r: Request)
    reads snc, snc.ptrs
  {
    && snc.disks == r.disks && snc.bytes == r.bytes && |snc.ptrs| == |r.ptrs|
    && forall z :: 0 <= z < |r.ptrs| ==> r.ptrs[z] in mem && mem[r.ptrs[z]] == snc.ptrs[z][..]
  }

  /** A round of the server's loop with the word encoder, and the same round of the state machine: they agree, for both
      marshallings, on every buffer of the request. */
  method ServeAsModelled(snc: ActualSnc, wide: bool, copy: bool, ghost g: Globals, ghost heap: map<nat, seq<Ptr>>,
      ghost mem: Memory, ghost r: Request)
    returns (ghost after: Memory)
    requires snc.Valid() && ValidRequest(r) && ContainerOf(g.actualSnc, heap, r) && Represents(snc, mem, r)
    requires wide == r.wide
    modifies snc.P(), snc.Q()
    ensures ServeRound(copy, g, heap, mem, Fetch, 260) == ServeResult(Finished, after)
    ensures Represents(snc, after, r)
  {
    hide PBuffer, QBuffer, Serve, ServeRound, Represents, Result, ContainerOf, ValidRequest, JobOk, JobLeft;
    var round := ServeRound(copy, g, heap, mem, Fetch, 260);
    after := round.mem;
    FetchOk(snc, mem, r);
    RoundResult(copy, g, heap, mem, Fetch, mem, r, 260);
    DataOfDisks(snc, mem, r);
    ghost var p0, q0 := snc.P()[..], snc.Q()[..];
    if copy {
      snc.ServeCopied(wide);
    } else {
      snc.ServeMapped(wide);
    }
    AfterRound(snc, after, mem, r, p0, q0);
  }

  lemma AfterRound(snc: ActualSnc, after: Memory, mem: Memory, r: Request, p0: seq<bv8>, q0: seq<bv8>)
    requires snc.Valid() && ValidRequest(r) && Result(after, mem, r) && snc.disks == r.disks && snc.bytes == r.bytes
    requires r.ptrs[r.disks - 2] in mem && p0 == mem[r.ptrs[r.disks - 2]] && r.ptrs[r.disks - 1] in mem &&
             q0 == mem[r.ptrs[r.disks - 1]]
    requires forall z :: 0 <= z < snc.disks - 2 ==> r.ptrs[z] in mem && snc.Disks()[z] == mem[r.ptrs[z]]
    requires Present(mem, r) && Heads(snc.Disks(), snc.bytes) == Data(mem, r, r.disks - 2)
    requires snc.P()[..] == PBuffer(Heads(snc.Disks(), snc.bytes), snc.bytes) + p0[snc.bytes..]
    requires snc.Q()[..] == QBuffer(Heads(snc.Disks(), snc.bytes), snc.bytes) + q0[snc.bytes..]
    ensures Represents(snc, after, r)
  {
    hide PBuffer, QBuffer, Data, Heads;
    forall z | 0 <= z < |r.ptrs|
      ensures r.ptrs[z] in after && after[r.ptrs[z]] == snc.ptrs[z][..]
    {
      if z < r.disks - 2 {
        assert snc.Disks()[z] == snc.ptrs[z][..];
      }
    }
  }

  lemma FetchOk(snc: ActualSnc, mem: Memory, r: Request)
    requires snc.Valid() && ValidRequest(r) && Represents(snc, mem, r)
    ensures JobOk(mem, mem, r, Fetch) && JobLeft(Fetch) == 260 && snc.WholeWords(r.wide)
    ensures r.ptrs[r.disks - 2] in mem && mem[r.ptrs[r.disks - 2]] == snc.P()[..]
    ensures r.ptrs[r.disks - 1] in mem && mem[r.ptrs[r.disks - 1]] == snc.Q()[..]
    ensures snc.disks == r.disks && snc.bytes == r.bytes && Present(mem, r)
    ensures forall z :: 0 <= z < snc.disks - 2 ==> r.ptrs[z] in mem && mem[r.ptrs[z]] == snc.Disks()[z]
  {}

  lemma DataOfDisks(snc: ActualSnc, mem: Memory, r: Request)
    requires snc.Valid() && ValidRequest(r) && Represents(snc, mem, r) && Present(mem, r)
    ensures Heads(snc.Disks(), snc.bytes) == Data(mem, r, r.disks - 2)
  {}
}
