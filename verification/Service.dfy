/** Serving one container: the daemon's pass over the disks keeps what the caller relies on. */
module Service {
  import opened Rendezvous
  import opened System

  predicate SameShape(m: Memory, m': Memory) {
    m.Keys == m'.Keys && forall p :: p in m ==> |m[p]| == |m'[p]|
  }

  lemma PresentShape(m: Memory, m': Memory, r: Request)
    requires SameShape(m, m') && Present(m, r)
    ensures Present(m', r)
  {}

  lemma ShapeTransitive(m: Memory, m': Memory, m'': Memory)
    requires SameShape(m, m') && SameShape(m', m'')
    ensures SameShape(m, m'')
  {}

  lemma OverwriteShape(mem: Memory, p: Ptr, content: seq<bv8>)
    requires p in mem && |content| <= |mem[p]|
    ensures SameShape(mem, Overwrite(mem, p, content))
    ensures Overwrite(mem, p, content)[p] == content + mem[p][|content|..]
    ensures forall q :: q in mem && q != p ==> Overwrite(mem, p, content)[q] == mem[q]
  {}

  /** How far the daemon is with the container of request r, whose caller entered with memory `entry`. */
  predicate JobOk(mem: Memory, entry: Memory, r: Request, job: Job)
    requires ValidRequest(r)
  {
    && Present(mem, r) && Present(entry, r)
    && var n := r.disks - 2;
       match job
       case Fetch => Same(mem, entry, r)
       case Map(disks, bytes, mapped) =>
         disks == r.disks && bytes == r.bytes && mapped <= r.ptrs && Same(mem, entry, r)
       case Read(disks, bytes, local) =>
         disks == r.disks && bytes == r.bytes && |local| <= n && local == Data(entry, r, |local|) && Same(mem, entry, r)
       case WriteP(disks, bytes, p, q) =>
         && disks == r.disks && bytes == r.bytes && Same(mem, entry, r)
         && p == PBuffer(Data(entry, r, n), bytes) && q == QBuffer(Data(entry, r, n), bytes)
       case WriteQ(disks, bytes, q) =>
         && disks == r.disks && bytes == r.bytes
         && q == QBuffer(Data(entry, r, n), bytes)
         && HasP(mem, entry, r)
       case Finished => Result(mem, entry, r)
       case Faulted => false
  }

  /** P is written, Q is not. */
  predicate HasP(mem: Memory, entry: Memory, r: Request)
    requires ValidRequest(r) && Present(mem, r) && Present(entry, r)
  {
    var p, q := r.ptrs[r.disks - 2], r.ptrs[r.disks - 1];
    && (forall z :: 0 <= z < r.disks - 2 ==> mem[r.ptrs[z]] == entry[r.ptrs[z]])
    && mem[p] == PBuffer(Data(entry, r, r.disks - 2), r.bytes) + entry[p][r.bytes..]
    && mem[q] == entry[q]
  }

  /** The container that the daemon finds is the one of request r, its pointer array is allocated. */
  predicate ContainerOf(snc: Container, heap: map<nat, seq<Ptr>>, r: Request) {
    snc == Container(r.disks, r.bytes, snc.ptrs) && snc.ptrs in heap && heap[snc.ptrs] == r.ptrs
  }

  lemma WritePStep(mem: Memory, entry: Memory, r: Request, p: seq<bv8>)
    requires ValidRequest(r) && Present(mem, r) && Present(entry, r) && Same(mem, entry, r)
    requires p == PBuffer(Data(entry, r, r.disks - 2), r.bytes)
    ensures var mem' := Overwrite(mem, r.ptrs[r.disks - 2], p);
            SameShape(mem, mem') && Present(mem', r) && HasP(mem', entry, r)
  {
    hide PBuffer;
    OverwriteShape(mem, r.ptrs[r.disks - 2], p);
  }

  lemma WriteQStep(mem: Memory, entry: Memory, r: Request, q: seq<bv8>)
    requires ValidRequest(r) && Present(mem, r) && Present(entry, r) && HasP(mem, entry, r)
    requires q == QBuffer(Data(entry, r, r.disks - 2), r.bytes)
    ensures var mem' := Overwrite(mem, r.ptrs[r.disks - 1], q);
            SameShape(mem, mem') && Result(mem', entry, r)
  {
    hide PBuffer, QBuffer;
    OverwriteShape(mem, r.ptrs[r.disks - 1], q);
  }

  lemma DataExtend(mem: Memory, entry: Memory, r: Request, k: nat)
    requires k < |r.ptrs| && Present(mem, r) && Present(entry, r) && Same(mem, entry, r)
    ensures Data(entry, r, k) + [mem[r.ptrs[k]][..r.bytes]] == Data(entry, r, k + 1)
  {}

  lemma MappedIsData(mem: Memory, entry: Memory, r: Request)
    requires ValidRequest(r) && Present(mem, r) && Present(entry, r) && Same(mem, entry, r)
    ensures MappedData(mem, r.ptrs, r.bytes) == Data(entry, r, r.disks - 2)
  {}

  lemma ServeFetch(copy: bool, g: Globals, heap: map<nat, seq<Ptr>>, mem: Memory, job: Job, entry: Memory, r: Request)
    requires ValidRequest(r) && JobOk(mem, entry, r, job) && ContainerOf(g.actualSnc, heap, r)
    requires job.Fetch?
    ensures var s := Serve(copy, g, heap, mem, job);
            s.job != Faulted && SameShape(mem, s.mem) && JobOk(s.mem, entry, r, s.job)
  {
    hide PBuffer, QBuffer, Overwrite, HasP, Result, Data, MappedData, SameShape;
    DataNone(entry, r);
    SameShapeSelf(mem);
  }

  lemma ServeMap(copy: bool, g: Globals, heap: map<nat, seq<Ptr>>, mem: Memory, job: Job, entry: Memory, r: Request)
    requires ValidRequest(r) && JobOk(mem, entry, r, job) && ContainerOf(g.actualSnc, heap, r)
    requires job.Map?
    ensures var s := Serve(copy, g, heap, mem, job);
            s.job != Faulted && SameShape(mem, s.mem) && JobOk(s.mem, entry, r, s.job)
  {
    hide PBuffer, QBuffer, Overwrite, HasP, Result, Data, MappedData, SameShape;
    SameShapeSelf(mem);
    if |job.mapped| == job.disks {
      assert job.mapped == r.ptrs;
      var data := Data(entry, r, r.disks - 2);
      MappedIsData(mem, entry, r);
      var p, q := PBuffer(data, r.bytes), QBuffer(data, r.bytes);
      WritePStep(mem, entry, r, p);
      var mem1 := Overwrite(mem, r.ptrs[r.disks - 2], p);
      WriteQStep(mem1, entry, r, q);
      var mem2 := Overwrite(mem1, r.ptrs[r.disks - 1], q);
      ResultPresent(mem2, entry, r);
      ShapeTransitive(mem, mem1, mem2);
    }
  }

  lemma ServeRead(copy: bool, g: Globals, heap: map<nat, seq<Ptr>>, mem: Memory, job: Job, entry: Memory, r: Request)
    requires ValidRequest(r) && JobOk(mem, entry, r, job) && ContainerOf(g.actualSnc, heap, r)
    requires job.Read?
    ensures var s := Serve(copy, g, heap, mem, job);
            s.job != Faulted && SameShape(mem, s.mem) && JobOk(s.mem, entry, r, s.job)
  {
    hide PBuffer, QBuffer, Overwrite, HasP, Result, Data, MappedData, SameShape;
    SameShapeSelf(mem);
    if |job.local| < job.disks - 2 {
      DataExtend(mem, entry, r, |job.local|);
    }
  }

  lemma ServeWrite(copy: bool, g: Globals, heap: map<nat, seq<Ptr>>, mem: Memory, job: Job, entry: Memory, r: Request)
    requires ValidRequest(r) && JobOk(mem, entry, r, job) && ContainerOf(g.actualSnc, heap, r)
    requires job.WriteP? || job.WriteQ? || job.Finished?
    ensures var s := Serve(copy, g, heap, mem, job);
            s.job != Faulted && SameShape(mem, s.mem) && JobOk(s.mem, entry, r, s.job)
  {
    hide PBuffer, QBuffer, Overwrite, HasP, Result, Data, MappedData, SameShape;
    SameShapeSelf(mem);
    if job.WriteP? {
      WritePStep(mem, entry, r, job.p);
    } else if job.WriteQ? {
      WriteQStep(mem, entry, r, job.q);
      ResultPresent(Overwrite(mem, r.ptrs[r.disks - 1], job.q), entry, r);
    }
  }

  lemma SameShapeSelf(mem: Memory)
    ensures SameShape(mem, mem)
  {}

  /** No step of the service faults, and each keeps the job in order, in both ways of marshalling. */
  lemma ServeStep(copy: bool, g: Globals, heap: map<nat, seq<Ptr>>, mem: Memory, job: Job, entry: Memory, r: Request)
    requires ValidRequest(r) && JobOk(mem, entry, r, job) && ContainerOf(g.actualSnc, heap, r)
    ensures var s := Serve(copy, g, heap, mem, job);
            s.job != Faulted && SameShape(mem, s.mem) && JobOk(s.mem, entry, r, s.job)
  {
    hide Serve, JobOk;
    match job
    case Fetch => ServeFetch(copy, g, heap, mem, job, entry, r);
    case Map(_, _, _) => ServeMap(copy, g, heap, mem, job, entry, r);
    case Read(_, _, _) => ServeRead(copy, g, heap, mem, job, entry, r);
    case Faulted => NeverFaulted(mem, entry, r);
    case _ => ServeWrite(copy, g, heap, mem, job, entry, r);
  }

  lemma NeverFaulted(mem: Memory, entry: Memory, r: Request)
    requires ValidRequest(r)
    ensures !JobOk(mem, entry, r, Faulted)
  {}

  lemma DataNone(mem: Memory, r: Request)
    requires Present(mem, r)
    ensures Data(mem, r, 0) == []
  {}

  lemma ResultPresent(mem: Memory, entry: Memory, r: Request)
    requires ValidRequest(r) && Result(mem, entry, r)
    ensures Present(mem, r) && Present(entry, r)
  {}

  /** The steps the daemon still takes for the container. */
  function JobLeft(job: Job): (left: nat) {
    match job
    case Fetch => 260
    case Map(disks, _, mapped) => if |mapped| <= disks <= 255 then disks - |mapped| + 1 else 0
    case Read(disks, _, local) => if |local| <= disks <= 255 then disks - |local| + 3 else 0
    case WriteP(_, _, _, _) => 2
    case WriteQ(_, _, _) => 1
    case Finished => 0
    case Faulted => 0
  }

  /** Each step of the service brings it nearer to its end. */
  lemma ServeProgress(copy: bool, g: Globals, heap: map<nat, seq<Ptr>>, mem: Memory, job: Job, entry: Memory,
      r: Request)
    requires ValidRequest(r) && JobOk(mem, entry, r, job) && ContainerOf(g.actualSnc, heap, r) && job != Finished
    ensures JobLeft(Serve(copy, g, heap, mem, job).job) < JobLeft(job) <= 260
  {
    hide PBuffer, QBuffer, Overwrite, HasP, Result, Data, MappedData;
    ServeStep(copy, g, heap, mem, job, entry, r);
  }
}
