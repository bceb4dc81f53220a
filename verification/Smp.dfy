/** The threaded encoder: every interleaving of the workers computes what the sequential encoder does. */
module Smp {
  import opened Words
  import opened Syndrome
  import opened Encoder

  // ----- How the offsets are split -----

  /** The first offset of a worker: (bytes / number_of_threads) * thread_id. */
  function Start(bytes: nat, threads: nat, id: nat): (start: nat)
    requires id < threads
    ensures start <= bytes
  {
    StartBound(bytes / threads, id, threads, bytes);
    (bytes / threads) * id
  }

  lemma {:induction false} TimesMonotone(chunk: nat, a: nat, b: nat)
    requires a <= b
    ensures 0 <= chunk * a <= chunk * b
    decreases b
  {
    if a < b {
      TimesMonotone(chunk, a, b - 1);
      assert chunk * b == chunk * (b - 1) + chunk;
    } else if b > 0 {
      TimesMonotone(chunk, 0, b - 1);
      assert chunk * b == chunk * (b - 1) + chunk;
    }
  }

  lemma StartBound(chunk: nat, id: nat, threads: nat, bytes: nat)
    requires id < threads && chunk == bytes / threads
    ensures 0 <= chunk * id && chunk * id + chunk == chunk * (id + 1) <= chunk * threads <= bytes
  {
    TimesMonotone(chunk, 0, id);
    TimesMonotone(chunk, id + 1, threads);
    assert chunk * (id + 1) == chunk * id + chunk;
    Division(bytes, threads);
  }

  lemma Division(bytes: nat, threads: nat)
    requires threads > 0
    ensures (bytes / threads) * threads <= bytes
  {
    assert bytes == (bytes / threads) * threads + bytes % threads;
  }

  /** Where a worker stops: the last one at the end of the buffers. */
  function Stop(bytes: nat, threads: nat, id: nat): (stop: nat)
    requires id < threads
    ensures Start(bytes, threads, id) <= stop <= bytes
  {
    StartBound(bytes / threads, id, threads, bytes);
    if id + 1 == threads then bytes else Start(bytes, threads, id) + bytes / threads
  }

  /** The offset after the last word a worker touches: its words may reach past its stop. */
  function End(bytes: nat, threads: nat, id: nat, n: nat): (end: nat)
    requires id < threads && (n == 4 || n == 8)
    ensures Stop(bytes, threads, id) <= end < Stop(bytes, threads, id) + n
  {
    Start(bytes, threads, id) + RoundUp(Stop(bytes, threads, id) - Start(bytes, threads, id), n)
  }

  /** The offset after the last word any of the first k workers touches. */
  function Reach(bytes: nat, threads: nat, k: nat, n: nat): (reach: nat)
    requires k <= threads && (n == 4 || n == 8)
  {
    if k == 0 then 0
    else
      var r, e := Reach(bytes, threads, k - 1, n), End(bytes, threads, k - 1, n);
      if r < e then e else r
  }

  lemma {:induction false} ReachCoversEnds(bytes: nat, threads: nat, k: nat, n: nat)
    requires k <= threads && (n == 4 || n == 8)
    ensures forall id :: 0 <= id < k ==> End(bytes, threads, id, n) <= Reach(bytes, threads, k, n)
    ensures k > 0 ==> exists id :: 0 <= id < k && End(bytes, threads, id, n) == Reach(bytes, threads, k, n)
  {
    if k > 0 {
      ReachCoversEnds(bytes, threads, k - 1, n);
      assert End(bytes, threads, k - 1, n) <= Reach(bytes, threads, k, n);
      if k == 1 {
        assert End(bytes, threads, 0, n) == Reach(bytes, threads, 1, n);
      }
    }
  }

  /** The buffers need at most NSIZE - 1 bytes of slack. */
  lemma ReachSlack(bytes: nat, threads: nat, n: nat)
    requires threads > 0 && (n == 4 || n == 8)
    ensures bytes <= Reach(bytes, threads, threads, n) <= bytes + n - 1
  {
    ReachCoversEnds(bytes, threads, threads, n);
    assert Stop(bytes, threads, threads - 1) == bytes;
    assert End(bytes, threads, threads - 1, n) >= bytes;
  }

  lemma ChunkOf(o: nat, chunk: nat, threads: nat) returns (id: nat)
    requires threads > 0
    ensures id < threads && chunk * id <= o && (id + 1 < threads ==> o < chunk * id + chunk)
  {
    id := 0;
    while id + 1 < threads && chunk * id + chunk <= o
      invariant 0 <= id < threads && chunk * id <= o
      decreases threads - id
    {
      id := id + 1;
    }
  }

  /** Every offset within reach lies in the words of some worker. */
  lemma Covered(o: nat, bytes: nat, threads: nat, n: nat) returns (id: nat)
    requires threads > 0 && (n == 4 || n == 8)
    requires o < Reach(bytes, threads, threads, n)
    ensures id < threads && Start(bytes, threads, id) <= o < End(bytes, threads, id, n)
  {
    if o < bytes {
      id := ChunkOf(o, bytes / threads, threads);
    } else {
      ReachCoversEnds(bytes, threads, threads, n);
      id :| 0 <= id < threads && End(bytes, threads, id, n) == Reach(bytes, threads, threads, n);
    }
  }

  // ----- A worker -----

  /** Between two accesses to shared memory: about to compute a word, to store it to P, or to store it to Q. */
  datatype Worker =
    | AtHead(d: nat)
    | AtStoreP(d: nat, wp: Word, wq: Word)
    | AtStoreQ(d: nat, wp: Word, wq: Word)

  predicate Finished(w: Worker, stop: nat) {
    w.AtHead? && w.d >= stop
  }

  /** What a worker knows: its words so far are right, and so are its registers. */
  predicate WorkerOk(data: seq<seq<bv8>>, p: seq<bv8>, q: seq<bv8>, w: Worker, start: nat, stop: nat, n: nat)
    requires n == 4 || n == 8
  {
    && start <= w.d && start <= stop
    && (w.d - start) % n == 0
    && w.d <= start + RoundUp(stop - start, n)
    && RightP(data, p, start, w.d) && RightQ(data, q, start, w.d)
    && (!w.AtHead? ==> w.d < stop && w.wp.Size() == w.wq.Size() == n && Checks(data, w.d, w.wp, w.wq))
    && (w.AtStoreQ? ==> RightP(data, p, w.d, w.d + n))
  }

  /** An upper bound of the steps a worker still takes. */
  function StepsLeft(w: Worker, stop: nat): (left: nat) {
    match w
    case AtHead(d) => if d >= stop then 0 else 3 * (stop - d)
    case AtStoreP(d, _, _) => if d >= stop then 0 else 3 * (stop - d) - 1
    case AtStoreQ(d, _, _) => if d >= stop then 0 else 3 * (stop - d) - 2
  }

  function TotalLeft(workers: seq<Worker>, bytes: nat, threads: nat): (left: nat)
    requires |workers| <= threads
  {
    if |workers| == 0 then 0
    else
      var id := |workers| - 1;
      TotalLeft(workers[..id], bytes, threads) + StepsLeft(workers[id], Stop(bytes, threads, id))
  }

  lemma {:induction false} TotalUpdate(workers: seq<Worker>, bytes: nat, threads: nat, id: nat, w: Worker)
    requires |workers| <= threads && id < |workers|
    ensures TotalLeft(workers[id := w], bytes, threads) - StepsLeft(w, Stop(bytes, threads, id))
         == TotalLeft(workers, bytes, threads) - StepsLeft(workers[id], Stop(bytes, threads, id))
    decreases |workers|
  {
    var last := |workers| - 1;
    if id == last {
      assert workers[id := w][..last] == workers[..last];
    } else {
      assert workers[id := w][..last] == workers[..last][id := w];
      TotalUpdate(workers[..last], bytes, threads, id, w);
    }
  }

  // ----- Stores of right words keep right bytes right, whoever wrote them -----

  lemma KeepP(data: seq<seq<bv8>>, p: seq<bv8>, p': seq<bv8>, d: nat, n: nat, lo: nat, hi: nat)
    requires |p| == |p'| && d + n <= |p| && RightP(data, p', d, d + n)
    requires forall o :: 0 <= o < |p| && !(d <= o < d + n) ==> p'[o] == p[o]
    requires RightP(data, p, lo, hi)
    ensures RightP(data, p', lo, hi)
  {}

  lemma KeepQ(data: seq<seq<bv8>>, q: seq<bv8>, q': seq<bv8>, d: nat, n: nat, lo: nat, hi: nat)
    requires |q| == |q'| && d + n <= |q| && RightQ(data, q', d, d + n)
    requires forall o :: 0 <= o < |q| && !(d <= o < d + n) ==> q'[o] == q[o]
    requires RightQ(data, q, lo, hi)
    ensures RightQ(data, q', lo, hi)
  {}

  /** From one memory to the next, no right byte is spoilt, and nothing at or above `reach` changes. */
  ghost predicate Improves(data: seq<seq<bv8>>, p: seq<bv8>, q: seq<bv8>, p': seq<bv8>, q': seq<bv8>, reach: nat) {
    && |p'| == |p| && |q'| == |q| && reach <= |p| && reach <= |q|
    && p'[reach..] == p[reach..] && q'[reach..] == q[reach..]
    && (forall lo, hi :: RightP(data, p, lo, hi) ==> RightP(data, p', lo, hi))
    && (forall lo, hi :: RightQ(data, q, lo, hi) ==> RightQ(data, q', lo, hi))
  }

  lemma ImprovesKeepsWorker(data: seq<seq<bv8>>, p: seq<bv8>, q: seq<bv8>, p': seq<bv8>, q': seq<bv8>, reach: nat,
                            w: Worker, start: nat, stop: nat, n: nat)
    requires n == 4 || n == 8
    requires Improves(data, p, q, p', q', reach) && WorkerOk(data, p, q, w, start, stop, n)
    ensures WorkerOk(data, p', q', w, start, stop, n)
  {
    hide RightP, RightQ, Checks;
  }

  lemma JoinP(data: seq<seq<bv8>>, p: seq<bv8>, lo: nat, mid: nat, hi: nat)
    requires lo <= mid <= hi && RightP(data, p, lo, mid) && RightP(data, p, mid, hi)
    ensures RightP(data, p, lo, hi)
  {}

  lemma JoinQ(data: seq<seq<bv8>>, q: seq<bv8>, lo: nat, mid: nat, hi: nat)
    requires lo <= mid <= hi && RightQ(data, q, lo, mid) && RightQ(data, q, mid, hi)
    ensures RightQ(data, q, lo, hi)
  {}

  lemma WordFits(start: nat, stop: nat, d: nat, n: nat)
    requires n == 4 || n == 8
    requires start <= d < stop && (d - start) % n == 0
    ensures d + n <= start + RoundUp(stop - start, n) && (d + n - start) % n == 0
  {}

  /** The next access of a worker to shared memory. */
  method StepWorker(wide: bool, disks: int, ptrs: seq<array<bv8>>, w: Worker, ghost start: nat, stop: nat,
      ghost reach: nat)
    returns (w': Worker)
    requires Call(disks, ptrs) && AtLeast(ptrs, reach)
    requires WorkerOk(Contents(ptrs[..disks - 2]), ptrs[disks - 2][..], ptrs[disks - 1][..], w, start, stop,
             NSize(wide))
    requires start + RoundUp(stop - start, NSize(wide)) <= reach
    requires !Finished(w, stop)
    modifies ptrs[disks - 2], ptrs[disks - 1]
    ensures Contents(ptrs[..disks - 2]) == old(Contents(ptrs[..disks - 2]))
    ensures WorkerOk(Contents(ptrs[..disks - 2]), ptrs[disks - 2][..], ptrs[disks - 1][..], w', start, stop,
            NSize(wide))
    ensures Improves(Contents(ptrs[..disks - 2]), old(ptrs[disks - 2][..]), old(ptrs[disks - 1][..]),
                     ptrs[disks - 2][..], ptrs[disks - 1][..], reach)
    ensures StepsLeft(w', stop) < StepsLeft(w, stop)
  {
    hide RightP, RightQ, Checks, RoundUp, Contents;
    var n := NSize(wide);
    var p, q := ptrs[disks - 2], ptrs[disks - 1];
    ghost var data := Contents(ptrs[..disks - 2]);
    ghost var p0, q0 := p[..], q[..];
    WordFits(start, stop, w.d, n);
    match w {
      case AtHead(d) =>
        var wp, wq := ComputeWord(wide, disks, ptrs, d);
        w' := AtStoreP(d, wp, wq);
      case AtStoreP(d, wp, wq) =>
        StoreWord(p, d, wp);
        RightFromWordP(data, d, wp, wq, p[..]);
        forall lo, hi | RightP(data, p0, lo, hi)
          ensures RightP(data, p[..], lo, hi)
        {
          KeepP(data, p0, p[..], d, n, lo, hi);
        }
        w' := AtStoreQ(d, wp, wq);
      case AtStoreQ(d, wp, wq) =>
        StoreWord(q, d, wq);
        RightFromWordQ(data, d, wp, wq, q[..]);
        forall lo, hi | RightQ(data, q0, lo, hi)
          ensures RightQ(data, q[..], lo, hi)
        {
          KeepQ(data, q0, q[..], d, n, lo, hi);
        }
        JoinP(data, p[..], start, d, d + n);
        JoinQ(data, q[..], start, d, d + n);
        w' := AtHead(d + n);
    }
  }

  // ----- The call -----

  /** Every worker started so far is in order. */
  predicate AllOk(data: seq<seq<bv8>>, p: seq<bv8>, q: seq<bv8>, workers: seq<Worker>, bytes: nat, threads: nat, n: nat)
    requires n == 4 || n == 8
  {
    && |workers| <= threads
    && forall id :: 0 <= id < |workers| ==>
         WorkerOk(data, p, q, workers[id], Start(bytes, threads, id), Stop(bytes, threads, id), n)
  }

  lemma AllOkStep(data: seq<seq<bv8>>, p: seq<bv8>, q: seq<bv8>, p': seq<bv8>, q': seq<bv8>, reach: nat,
                  workers: seq<Worker>, id: nat, w: Worker, bytes: nat, threads: nat, n: nat)
    requires n == 4 || n == 8
    requires AllOk(data, p, q, workers, bytes, threads, n) && id < |workers|
    requires Improves(data, p, q, p', q', reach)
    requires WorkerOk(data, p', q', w, Start(bytes, threads, id), Stop(bytes, threads, id), n)
    ensures AllOk(data, p', q', workers[id := w], bytes, threads, n)
  {
    hide WorkerOk, Improves, Start, Stop;
    forall k | 0 <= k < |workers|
      ensures WorkerOk(data, p', q', workers[id := w][k], Start(bytes, threads, k), Stop(bytes, threads, k), n)
    {
      if k != id {
        ImprovesKeepsWorker(data, p, q, p', q', reach, workers[k], Start(bytes, threads, k), Stop(bytes, threads, k),
            n);
      }
    }
  }

  lemma FreshWorker(data: seq<seq<bv8>>, p: seq<bv8>, q: seq<bv8>, start: nat, stop: nat, n: nat)
    requires n == 4 || n == 8
    requires start <= stop && stop <= |p| && stop <= |q| && forall z :: 0 <= z < |data| ==> stop <= |data[z]|
    ensures WorkerOk(data, p, q, AtHead(start), start, stop, n)
  {}

  /** A finished worker has written all its words. */
  lemma FinishedWorker(data: seq<seq<bv8>>, p: seq<bv8>, q: seq<bv8>, w: Worker, bytes: nat, threads: nat, id: nat,
      n: nat)
    requires (n == 4 || n == 8) && id < threads
    requires WorkerOk(data, p, q, w, Start(bytes, threads, id), Stop(bytes, threads, id), n)
    requires Finished(w, Stop(bytes, threads, id))
    ensures RightP(data, p, Start(bytes, threads, id), End(bytes, threads, id, n))
    ensures RightQ(data, q, Start(bytes, threads, id), End(bytes, threads, id, n))
  {
    hide RightP, RightQ, Start, Stop;
    var start, stop := Start(bytes, threads, id), Stop(bytes, threads, id);
    LastWord(stop - start, n, w.d - start);
  }

  /** Once all workers are finished, all of [0, reach) is right. */
  lemma AllFinished(data: seq<seq<bv8>>, p: seq<bv8>, q: seq<bv8>, workers: seq<Worker>, bytes: nat, threads: nat,
      n: nat)
    requires (n == 4 || n == 8) && threads > 0
    requires AllOk(data, p, q, workers, bytes, threads, n) && |workers| == threads
    requires forall id :: 0 <= id < threads ==> Finished(workers[id], Stop(bytes, threads, id))
    requires Reach(bytes, threads, threads, n) <= |p| && Reach(bytes, threads, threads, n) <= |q|
    requires forall z :: 0 <= z < |data| ==> Reach(bytes, threads, threads, n) <= |data[z]|
    ensures Encoded(data, p, q, Reach(bytes, threads, threads, n))
  {
    hide WorkerOk, Finished, PByte, QByte, Reach, Start, Stop, End;
    forall o | 0 <= o < Reach(bytes, threads, threads, n)
      ensures p[o] == PByte(Column(data, o)) && q[o] == QByte(Column(data, o))
    {
      var id := Covered(o, bytes, threads, n);
      FinishedWorker(data, p, q, workers[id], bytes, threads, id, n);
    }
  }

  /** `raid6_smp_gen_syndrome`: the calling thread starts the workers one after another and joins them all; at
      every moment any worker already started may take the next step.  Whatever the schedule, the call
      terminates, and then P and Q hold the check bytes as after the sequential encoder. */
  method SmpGenSyndrome(wide: bool, disks: int, bytes: nat, threads: nat, ptrs: seq<array<bv8>>)
    requires Call(disks, ptrs) && bytes + NSize(wide) <= INT_LIMIT && threads > 0
    requires AtLeast(ptrs, Reach(bytes, threads, threads, NSize(wide)))
    modifies ptrs[disks - 2], ptrs[disks - 1]
    ensures Contents(ptrs[..disks - 2]) == old(Contents(ptrs[..disks - 2]))
    ensures var reach := Reach(bytes, threads, threads, NSize(wide));
            && Encoded(Contents(ptrs[..disks - 2]), ptrs[disks - 2][..], ptrs[disks - 1][..], reach)
            && ptrs[disks - 2][reach..] == old(ptrs[disks - 2][reach..])
            && ptrs[disks - 1][reach..] == old(ptrs[disks - 1][reach..])
  {
    hide WorkerOk, Finished, Improves, Encoded, Start, Stop, End, Contents, StepsLeft;
    var n := NSize(wide);
    ghost var data := Contents(ptrs[..disks - 2]);
    ghost var reach := Reach(bytes, threads, threads, n);
    ReachSlack(bytes, threads, n);
    ReachCoversEnds(bytes, threads, threads, n);
    DataLengths(disks, ptrs, reach);
    var workers: seq<Worker> := [];
    while |workers| < threads || exists id :: 0 <= id < |workers| && !Finished(workers[id], Stop(bytes, threads, id))
      invariant Contents(ptrs[..disks - 2]) == data
      invariant AllOk(data, ptrs[disks - 2][..], ptrs[disks - 1][..], workers, bytes, threads, n)
      invariant ptrs[disks - 2][reach..] == old(ptrs[disks - 2][reach..])
      invariant ptrs[disks - 1][reach..] == old(ptrs[disks - 1][reach..])
      decreases threads - |workers|, TotalLeft(workers, bytes, threads)
    {
      ghost var p, q := ptrs[disks - 2][..], ptrs[disks - 1][..];
      if {
        case |workers| < threads =>
          var id := |workers|;
          FreshWorker(data, p, q, Start(bytes, threads, id), Stop(bytes, threads, id), n);
          workers := workers + [AtHead(Start(bytes, threads, id))];
        case exists id :: 0 <= id < |workers| && !Finished(workers[id], Stop(bytes, threads, id)) =>
          var id :| 0 <= id < |workers| && !Finished(workers[id], Stop(bytes, threads, id));
          EndDefinition(bytes, threads, id, n);
          var w := StepWorker(wide, disks, ptrs, workers[id], Start(bytes, threads, id), Stop(bytes, threads, id),
              reach);
          AllOkStep(data, p, q, ptrs[disks - 2][..], ptrs[disks - 1][..], reach, workers, id, w, bytes, threads, n);
          ImprovesTail(data, p, q, ptrs[disks - 2][..], ptrs[disks - 1][..], reach);
          TotalUpdate(workers, bytes, threads, id, w);
          workers := workers[id := w];
      }
    }
    AllFinished(data, ptrs[disks - 2][..], ptrs[disks - 1][..], workers, bytes, threads, n);
  }

  lemma EndDefinition(bytes: nat, threads: nat, id: nat, n: nat)
    requires id < threads && (n == 4 || n == 8)
    ensures var start, stop := Start(bytes, threads, id), Stop(bytes, threads, id);
            start <= stop && start + RoundUp(stop - start, n) == End(bytes, threads, id, n)
  {}

  lemma ImprovesTail(data: seq<seq<bv8>>, p: seq<bv8>, q: seq<bv8>, p': seq<bv8>, q': seq<bv8>, reach: nat)
    requires Improves(data, p, q, p', q', reach)
    ensures |p'| == |p| && |q'| == |q| && reach <= |p| && reach <= |q|
    ensures p'[reach..] == p[reach..] && q'[reach..] == q[reach..]
  {}

  lemma DataLengths(disks: int, ptrs: seq<array<bv8>>, reach: nat)
    requires Call(disks, ptrs) && AtLeast(ptrs, reach)
    ensures |ptrs| == disks >= 3
    ensures var data := Contents(ptrs[..disks - 2]); forall z :: 0 <= z < |data| ==> reach <= |data[z]|
  {}

  // ----- When the workers keep apart -----

  /** No worker writes past the end of the buffers exactly when the last chunk is a whole number of words. */
  lemma NoSlackExactly(bytes: nat, threads: nat, wide: bool)
    requires threads > 0
    ensures Reach(bytes, threads, threads, NSize(wide)) == bytes <==>
            (bytes - Start(bytes, threads, threads - 1)) % NSize(wide) == 0
  {
    hide Start, Stop, End, Reach, RoundUp;
    var n := NSize(wide);
    ReachCoversEnds(bytes, threads, threads, n);
    ReachSlack(bytes, threads, n);
    var last := threads - 1;
    StopLast(bytes, threads);
    EndDefinition(bytes, threads, last, n);
    RoundUpExact(bytes - Start(bytes, threads, last), n);
    if (bytes - Start(bytes, threads, last)) % n == 0 {
      var id :| 0 <= id < threads && End(bytes, threads, id, n) == Reach(bytes, threads, threads, n);
      if id < last {
        EarlierEnd(bytes, threads, id, n);
      }
    } else {
      assert End(bytes, threads, last, n) <= Reach(bytes, threads, threads, n);
    }
  }

  /** The overrun is real: on 4096 bytes with words of eight three threads write two bytes past the end. */
  lemma OverrunOfThree()
    ensures Reach(4096, 3, 3, NSize(true)) == 4098
  {
    hide Reach;
    ReachCoversEnds(4096, 3, 3, 8);
    EndsOfThree();
  }

  lemma EndsOfThree()
    ensures End(4096, 3, 0, 8) == 1368 && End(4096, 3, 1, 8) == 2733 && End(4096, 3, 2, 8) == 4098
  {}

  /** It depends on the word: five threads write four bytes past the end with words of eight, and none with words of
      four. */
  lemma OverrunOfFive()
    ensures Reach(4096, 5, 5, NSize(true)) == 4100 && Reach(4096, 5, 5, NSize(false)) == 4096
  {
    hide Reach;
    ReachCoversEnds(4096, 5, 5, 8);
    ReachCoversEnds(4096, 5, 5, 4);
    EndsOfFive();
  }

  lemma EndsOfFive()
    ensures End(4096, 5, 0, 8) == 824 && End(4096, 5, 1, 8) == 1643 && End(4096, 5, 2, 8) == 2462
    ensures End(4096, 5, 3, 8) == 3281 && End(4096, 5, 4, 8) == 4100
    ensures End(4096, 5, 0, 4) == 820 && End(4096, 5, 1, 4) == 1639 && End(4096, 5, 2, 4) == 2458
    ensures End(4096, 5, 3, 4) == 3277 && End(4096, 5, 4, 4) == 4096
  {}

  lemma RoundUpExact(m: nat, n: nat)
    requires n == 4 || n == 8
    ensures RoundUp(m, n) >= m
    ensures RoundUp(m, n) == m <==> m % n == 0
  {}

  lemma StopLast(bytes: nat, threads: nat)
    requires threads > 0
    ensures Stop(bytes, threads, threads - 1) == bytes
  {}

  /** A worker before the last ends in bounds, when the last one does. */
  lemma EarlierEnd(bytes: nat, threads: nat, id: nat, n: nat)
    requires id + 1 < threads && (n == 4 || n == 8)
    requires (bytes - Start(bytes, threads, threads - 1)) % n == 0
    ensures End(bytes, threads, id, n) <= bytes
  {
    var chunk := bytes / threads;
    StartBound(chunk, id, threads, bytes);
    StartBound(chunk, threads - 1, threads, bytes);
    TimesMonotone(chunk, id + 1, threads - 1);
    RoundUpMonotone(chunk, bytes - Start(bytes, threads, threads - 1), n);
  }

  lemma RoundUpMonotone(a: nat, b: nat, n: nat)
    requires a <= b && (n == 4 || n == 8)
    ensures RoundUp(a, n) <= RoundUp(b, n)
    ensures b % n == 0 ==> RoundUp(b, n) == b
  {}

  /** The workers' words are pairwise disjoint when the chunk is a whole number of words. */
  lemma WorkersDisjoint(bytes: nat, threads: nat, i: nat, j: nat, wide: bool)
    requires i < j < threads && bytes / threads % NSize(wide) == 0
    ensures End(bytes, threads, i, NSize(wide)) <= Start(bytes, threads, j)
  {
    var n := NSize(wide);
    var chunk := bytes / threads;
    StartBound(chunk, i, threads, bytes);
    TimesMonotone(chunk, i + 1, j);
    RoundUpMonotone(chunk, chunk, n);
  }

  /** When it is not, neighbouring workers share bytes: each of two words at a border covers it. */
  lemma NeighboursOverlap(bytes: nat, threads: nat, i: nat, wide: bool)
    requires i + 1 < threads && bytes / threads % NSize(wide) != 0
    ensures End(bytes, threads, i, NSize(wide)) > Start(bytes, threads, i + 1)
    ensures Start(bytes, threads, i + 1) < Stop(bytes, threads, i + 1)
  {
    var n := NSize(wide);
    var chunk := bytes / threads;
    StartBound(chunk, i, threads, bytes);
    StartBound(chunk, i + 1, threads, bytes);
    assert RoundUp(chunk, n) % n == 0;
  }

  /** In particular when every thread gets k whole words: nobody writes past the end or into another's chunk. */
  lemma WholeChunks(bytes: nat, threads: nat, k: nat, wide: bool)
    requires threads > 0 && bytes == threads * (NSize(wide) * k)
    ensures Reach(bytes, threads, threads, NSize(wide)) == bytes
    ensures forall i, j :: 0 <= i < j < threads ==> End(bytes, threads, i, NSize(wide)) <= Start(bytes, threads, j)
  {
    hide Reach, End, RoundUp;
    var n := NSize(wide);
    ExactShare(bytes, threads, n * k);
    var last := threads - 1;
    assert Start(bytes, threads, last) == last * (n * k);
    assert bytes - last * (n * k) == n * k by { OneShare(threads, n * k); }
    TimesIsWhole(n, k);
    NoSlackExactly(bytes, threads, wide);
    forall i, j | 0 <= i < j < threads
      ensures End(bytes, threads, i, n) <= Start(bytes, threads, j)
    {
      WorkersDisjoint(bytes, threads, i, j, wide);
    }
  }

  lemma ExactShare(bytes: nat, threads: nat, share: nat)
    requires threads > 0 && bytes == threads * share
    ensures bytes / threads == share
  {
    var q := bytes / threads;
    assert threads * share == threads * q + threads * (share - q);
    NotBetween(threads, share - q);
  }

  lemma NotBetween(m: nat, k: int)
    ensures k == 0 || m * k + m <= 0 || m <= m * k
  {}

  lemma OneShare(threads: nat, share: nat)
    requires threads > 0
    ensures threads * share - (threads - 1) * share == share
  {}

  lemma TimesIsWhole(n: nat, k: nat)
    requires n == 4 || n == 8
    ensures n * k % n == 0
  {}
}
