/** The word-parallel P/Q encoders: the sequential one, and the one that splits the buffers among threads. */
module Encoder {
  import opened GF256
  import opened Words
  import opened Syndrome

  const INT_LIMIT := 0x8000_0000

  /** The contents of the buffers. */
  function Contents(buffers: seq<array<bv8>>): (c: seq<seq<bv8>>)
    reads buffers
    ensures |c| == |buffers|
    ensures forall z :: 0 <= z < |buffers| ==> c[z] == buffers[z][..]
  {
    if |buffers| == 0 then []
    else Contents(buffers[..|buffers| - 1]) + [buffers[|buffers| - 1][..]]
  }

  /** A call of an encoder: the data disks, then P, then Q; neither check disk is another disk. */
  predicate Call(disks: int, ptrs: seq<array<bv8>>) {
    && 3 <= disks == |ptrs|
    && ptrs[disks - 2] != ptrs[disks - 1]
    && forall z :: 0 <= z < disks - 2 ==> ptrs[z] != ptrs[disks - 2] && ptrs[z] != ptrs[disks - 1]
  }

  predicate AtLeast(ptrs: seq<array<bv8>>, size: nat) {
    forall z :: 0 <= z < |ptrs| ==> size <= ptrs[z].Length
  }

  /** The registers of the encoder after the disks from z up have been folded in. */
  predicate Folded(data: seq<seq<bv8>>, d: nat, z: nat, wp: Word, wq: Word) {
    && wp.Size() == wq.Size() && z <= |data|
    && (forall k :: 0 <= k < |data| ==> d + wp.Size() <= |data[k]|)
    && forall i :: 0 <= i < wp.Size() ==>
         && wp.Byte(i) == Horner(1, Column(data, d + i)[z..])
         && wq.Byte(i) == Horner(2, Column(data, d + i)[z..])
  }

  lemma FoldFirst(data: seq<seq<bv8>>, d: nat, n: nat)
    requires |data| > 0 && (n == 4 || n == 8)
    requires forall k :: 0 <= k < |data| ==> d + n <= |data[k]|
    ensures var w := Load(data[|data| - 1][d..d + n]); Folded(data, d, |data| - 1, w, w)
  {
    hide Load, Horner;
    var s := data[|data| - 1][d..d + n];
    forall i | 0 <= i < n
      ensures Load(s).Byte(i) == Horner(1, Column(data, d + i)[|data| - 1..])
              == Horner(2, Column(data, d + i)[|data| - 1..])
    {
      LoadByte(s, i);
      HornerLast(Column(data, d + i));
    }
  }

  lemma FoldNext(data: seq<seq<bv8>>, d: nat, z: nat, wp: Word, wq: Word, wd: Word)
    requires z < |data| && Folded(data, d, z + 1, wp, wq)
    requires wd == Load(data[z][d..d + wp.Size()])
    ensures Folded(data, d, z, XorWord(wp, wd), HornerWord(wq, wd))
  {
    hide Load, Horner, Add, Double, XorWord, HornerWord;
    var s := data[z][d..d + wp.Size()];
    forall i | 0 <= i < wp.Size()
      ensures XorWord(wp, wd).Byte(i) == Horner(1, Column(data, d + i)[z..])
      ensures HornerWord(wq, wd).Byte(i) == Horner(2, Column(data, d + i)[z..])
    {
      LoadByte(s, i);
      HornerByte(wp, wd, i);
      HornerByte(wq, wd, i);
      HornerStep(Column(data, d + i), z);
    }
  }

  /** The registers hold the check bytes of the offsets d, d + 1, ... */
  predicate Checks(data: seq<seq<bv8>>, d: nat, wp: Word, wq: Word) {
    && wp.Size() == wq.Size()
    && (forall k :: 0 <= k < |data| ==> d + wp.Size() <= |data[k]|)
    && forall i :: 0 <= i < wp.Size() ==>
         && wp.Byte(i) == PByte(Column(data, d + i))
         && wq.Byte(i) == QByte(Column(data, d + i))
  }

  lemma FoldedAll(data: seq<seq<bv8>>, d: nat, wp: Word, wq: Word)
    requires Folded(data, d, 0, wp, wq)
    ensures Checks(data, d, wp, wq)
  {
    hide Horner, PByte, QByte;
    forall i | 0 <= i < wp.Size()
      ensures wp.Byte(i) == PByte(Column(data, d + i)) && wq.Byte(i) == QByte(Column(data, d + i))
    {
      HornerIsPQ(Column(data, d + i));
    }
  }

  // ----- The loop body -----

  /** The inner loop over the disks, from the highest data disk down. */
  method ComputeWord(wide: bool, disks: int, ptrs: seq<array<bv8>>, d: nat) returns (wp0: Word, wq0: Word)
    requires Call(disks, ptrs) && AtLeast(ptrs, d + NSize(wide))
    ensures wp0.Size() == wq0.Size() == NSize(wide) && (wp0.W64? <==> wide) && (wq0.W64? <==> wide)
    ensures Checks(Contents(ptrs[..disks - 2]), d, wp0, wq0)
  {
    hide Folded, Checks, Load;
    var n := NSize(wide);
    var z0 := disks - 3;
    ghost var data := Contents(ptrs[..disks - 2]);
    wq0 := Load(ptrs[z0][d..d + n]);
    wp0 := wq0;
    assert ptrs[z0][d..d + n] == data[z0][d..d + n];
    FoldFirst(data, d, n);
    var z := z0 - 1;
    while z >= 0
      invariant -1 <= z < z0
      invariant wp0.Size() == wq0.Size() == n
      invariant Folded(data, d, z + 1, wp0, wq0)
    {
      var wd0 := Load(ptrs[z][d..d + n]);
      assert ptrs[z][d..d + n] == data[z][d..d + n];
      FoldNext(data, d, z, wp0, wq0, wd0);
      wp0 := XorWord(wp0, wd0);
      wq0 := HornerWord(wq0, wd0);
      z := z - 1;
    }
    FoldedAll(data, d, wp0, wq0);
  }

  /** `*(unative_t *)&a[d] = w` */
  method StoreWord(a: array<bv8>, d: nat, w: Word)
    requires d + w.Size() <= a.Length
    modifies a
    ensures forall o :: 0 <= o < a.Length ==> a[o] == if d <= o < d + w.Size() then w.Byte(o - d) else old(a[o])
  {
    var i := 0;
    while i < w.Size()
      invariant 0 <= i <= w.Size()
      invariant forall o :: 0 <= o < a.Length ==> a[o] == if d <= o < d + i then w.Byte(o - d) else old(a[o])
    {
      a[d + i] := w.Byte(i);
      i := i + 1;
    }
  }

  /** p and q hold the right check bytes from lo up to hi. */
  predicate RightP(data: seq<seq<bv8>>, p: seq<bv8>, lo: nat, hi: nat) {
    && hi <= |p| && (forall z :: 0 <= z < |data| ==> hi <= |data[z]|)
    && forall o :: lo <= o < hi ==> p[o] == PByte(Column(data, o))
  }

  predicate RightQ(data: seq<seq<bv8>>, q: seq<bv8>, lo: nat, hi: nat) {
    && hi <= |q| && (forall z :: 0 <= z < |data| ==> hi <= |data[z]|)
    && forall o :: lo <= o < hi ==> q[o] == QByte(Column(data, o))
  }

  lemma RightFromWordP(data: seq<seq<bv8>>, d: nat, wp: Word, wq: Word, p: seq<bv8>)
    requires Checks(data, d, wp, wq) && d + wp.Size() <= |p|
    requires forall o :: d <= o < d + wp.Size() ==> p[o] == wp.Byte(o - d)
    ensures RightP(data, p, d, d + wp.Size())
  {
    hide PByte, QByte;
    forall o | d <= o < d + wp.Size()
      ensures p[o] == PByte(Column(data, o))
    {
      assert wp.Byte(o - d) == PByte(Column(data, d + (o - d)));
    }
  }

  lemma RightFromWordQ(data: seq<seq<bv8>>, d: nat, wp: Word, wq: Word, q: seq<bv8>)
    requires Checks(data, d, wp, wq) && d + wp.Size() <= |q|
    requires forall o :: d <= o < d + wp.Size() ==> q[o] == wq.Byte(o - d)
    ensures RightQ(data, q, d, d + wp.Size())
  {
    hide PByte, QByte;
    forall o | d <= o < d + wp.Size()
      ensures q[o] == QByte(Column(data, o))
    {
      assert wq.Byte(o - d) == QByte(Column(data, d + (o - d)));
    }
  }

  /** The body of the outer loop: one word of P and one of Q. */
  method EncodeWord(wide: bool, disks: int, ptrs: seq<array<bv8>>, d: nat)
    requires Call(disks, ptrs) && AtLeast(ptrs, d + NSize(wide))
    modifies ptrs[disks - 2], ptrs[disks - 1]
    ensures Contents(ptrs[..disks - 2]) == old(Contents(ptrs[..disks - 2]))
    ensures RightP(Contents(ptrs[..disks - 2]), ptrs[disks - 2][..], d, d + NSize(wide))
    ensures RightQ(Contents(ptrs[..disks - 2]), ptrs[disks - 1][..], d, d + NSize(wide))
    ensures ptrs[disks - 2][..d] == old(ptrs[disks - 2][..d])
    ensures ptrs[disks - 2][d + NSize(wide)..] == old(ptrs[disks - 2][d + NSize(wide)..])
    ensures ptrs[disks - 1][..d] == old(ptrs[disks - 1][..d])
    ensures ptrs[disks - 1][d + NSize(wide)..] == old(ptrs[disks - 1][d + NSize(wide)..])
  {
    hide Checks, RightP, RightQ;
    var p, q := ptrs[disks - 2], ptrs[disks - 1];
    ghost var data := Contents(ptrs[..disks - 2]);
    var wp0, wq0 := ComputeWord(wide, disks, ptrs, d);
    StoreWord(p, d, wp0);
    StoreWord(q, d, wq0);
    RightFromWordP(data, d, wp0, wq0, p[..]);
    RightFromWordQ(data, d, wp0, wq0, q[..]);
  }

  /** m rounded up to a multiple of the word size. */
  function RoundUp(m: nat, n: nat): (r: nat)
    requires n == 4 || n == 8
    ensures m <= r < m + n && r % n == 0
  {
    if n == 4 then (m + 3) / 4 * 4 else (m + 7) / 8 * 8
  }

  lemma RightExtend(data: seq<seq<bv8>>, p: seq<bv8>, q: seq<bv8>, p': seq<bv8>, q': seq<bv8>, lo: nat, d: nat, n: nat)
    requires lo <= d && d + n <= |p| == |p'| && d + n <= |q| == |q'|
    requires p[..d] == p'[..d] && q[..d] == q'[..d]
    requires RightP(data, p, lo, d) && RightQ(data, q, lo, d)
    requires RightP(data, p', d, d + n) && RightQ(data, q', d, d + n)
    ensures RightP(data, p', lo, d + n) && RightQ(data, q', lo, d + n)
  {
    hide PByte, QByte;
    forall o | lo <= o < d + n
      ensures p'[o] == PByte(Column(data, o)) && q'[o] == QByte(Column(data, o))
    {
      if o < d {
        assert p[..d][o] == p'[..d][o] && q[..d][o] == q'[..d][o];
      }
    }
  }

  lemma SuffixKept(a: seq<bv8>, b: seq<bv8>, lo: nat, hi: nat)
    requires lo <= hi <= |a| == |b| && a[lo..] == b[lo..]
    ensures a[hi..] == b[hi..]
  {
    assert a[lo..][hi - lo..] == a[hi..] && b[lo..][hi - lo..] == b[hi..];
  }

  /** `raid6_vanilla_gen_syndrome`: afterwards the check disks hold P and Q of every offset up to the last word,
      and the rest of them, like the data disks, is unchanged. */
  method VanillaGenSyndrome(wide: bool, disks: int, bytes: nat, ptrs: seq<array<bv8>>)
    requires Call(disks, ptrs) && bytes + NSize(wide) <= INT_LIMIT
    requires AtLeast(ptrs, RoundUp(bytes, NSize(wide)))
    modifies ptrs[disks - 2], ptrs[disks - 1]
    ensures Contents(ptrs[..disks - 2]) == old(Contents(ptrs[..disks - 2]))
    ensures var size := RoundUp(bytes, NSize(wide));
            && Encoded(Contents(ptrs[..disks - 2]), ptrs[disks - 2][..], ptrs[disks - 1][..], size)
            && ptrs[disks - 2][size..] == old(ptrs[disks - 2][size..])
            && ptrs[disks - 1][size..] == old(ptrs[disks - 1][size..])
  {
    hide PByte, QByte, RightP, RightQ, RoundUp;
    var n := NSize(wide);
    var p, q := ptrs[disks - 2], ptrs[disks - 1];
    ghost var data := Contents(ptrs[..disks - 2]);
    ghost var size := RoundUp(bytes, n);
    RightNothing(data, p[..], q[..]);
    var d := 0;
    while d < bytes
      invariant 0 <= d <= size && d % n == 0
      invariant Contents(ptrs[..disks - 2]) == data
      invariant RightP(data, p[..], 0, d) && RightQ(data, q[..], 0, d)
      invariant p[size..] == old(p[size..]) && q[size..] == old(q[size..])
    {
      NextWord(bytes, n, d);
      ghost var p0, q0 := p[..], q[..];
      EncodeWord(wide, disks, ptrs, d);
      RightExtend(data, p0, q0, p[..], q[..], 0, d, n);
      SuffixKept(p0, p[..], d + n, size);
      SuffixKept(q0, q[..], d + n, size);
      d := d + n;
    }
    LastWord(bytes, n, d);
    RightIsEncoded(data, p[..], q[..], size);
  }

  lemma RightNothing(data: seq<seq<bv8>>, p: seq<bv8>, q: seq<bv8>)
    ensures RightP(data, p, 0, 0) && RightQ(data, q, 0, 0)
  {}

  lemma RightIsEncoded(data: seq<seq<bv8>>, p: seq<bv8>, q: seq<bv8>, size: nat)
    requires RightP(data, p, 0, size) && RightQ(data, q, 0, size)
    ensures Encoded(data, p, q, size)
  {}

  lemma NextWord(bytes: nat, n: nat, d: nat)
    requires n == 4 || n == 8
    requires d < bytes && d % n == 0
    ensures d + n <= RoundUp(bytes, n) && (d + n) % n == 0
  {}

  lemma LastWord(bytes: nat, n: nat, d: nat)
    requires n == 4 || n == 8
    requires bytes <= d <= RoundUp(bytes, n) && d % n == 0
    ensures d == RoundUp(bytes, n)
  {}
}
