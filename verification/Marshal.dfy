/** Carrying a container's buffers between the kernel and the daemon, and the daemon's service of one container:
    with both marshallings the caller's check disks end up with P and Q of its data. */
module Marshal {
  import opened Syndrome
  import opened Words
  import opened Encoder
  import opened System

  /** The first bytes of each buffer. */
  function Heads(buffers: seq<seq<bv8>>, bytes: nat): (heads: seq<seq<bv8>>)
    requires forall z :: 0 <= z < |buffers| ==> bytes <= |buffers[z]|
    ensures Rectangular(heads, bytes) && |heads| == |buffers|
    ensures forall z :: 0 <= z < |buffers| ==> heads[z] == buffers[z][..bytes]
  {
    seq(|buffers|, z requires 0 <= z < |buffers| => buffers[z][..bytes])
  }

  lemma HeadColumn(buffers: seq<seq<bv8>>, bytes: nat, i: nat)
    requires i < bytes && forall z :: 0 <= z < |buffers| ==> bytes <= |buffers[z]|
    ensures Column(Heads(buffers, bytes), i) == Column(buffers, i)
  {}

  /** An encoded stripe holds the P and Q buffers of its data, in front of what the check disks held beyond them. */
  lemma EncodedBuffers(data: seq<seq<bv8>>, p: seq<bv8>, q: seq<bv8>, p0: seq<bv8>, q0: seq<bv8>, bytes: nat)
    requires Encoded(data, p, q, bytes)
    requires bytes <= |p0| && bytes <= |q0| && p[bytes..] == p0[bytes..] && q[bytes..] == q0[bytes..]
    ensures p == PBuffer(Heads(data, bytes), bytes) + p0[bytes..]
    ensures q == QBuffer(Heads(data, bytes), bytes) + q0[bytes..]
  {
    hide PByte, QByte, Heads;
    forall i | 0 <= i < bytes
      ensures p[..bytes][i] == PBuffer(Heads(data, bytes), bytes)[i] &&
              q[..bytes][i] == QBuffer(Heads(data, bytes), bytes)[i]
    {
      HeadColumn(data, bytes, i);
    }
    assert p[..bytes] == PBuffer(Heads(data, bytes), bytes) && q[..bytes] == QBuffer(Heads(data, bytes), bytes);
    assert p == p[..bytes] + p[bytes..] && q == q[..bytes] + q[bytes..];
  }

  lemma EncodedWhole(data: seq<seq<bv8>>, p: seq<bv8>, q: seq<bv8>, bytes: nat)
    requires Encoded(data, p, q, bytes) && Rectangular(data, bytes) && |p| == bytes && |q| == bytes
    ensures p == PBuffer(data, bytes) && q == QBuffer(data, bytes)
  {
    hide PByte, QByte;
    EncodedBuffers(data, p, q, p, q, bytes);
    assert forall z :: 0 <= z < |data| ==> data[z][..bytes] == data[z];
    assert Heads(data, bytes) == data;
    assert p[bytes..] == [] && q[bytes..] == [];
  }

  /** copy_to_user and copy_from_user */
  method CopyBytes(to: array<bv8>, from: array<bv8>, n: nat)
    requires n <= to.Length && n <= from.Length && to != from
    modifies to
    ensures to[..] == from[..n] + old(to[..])[n..]
  {
    var i := 0;
    while i < n
      invariant 0 <= i <= n
      invariant forall k :: 0 <= k < to.Length ==> to[k] == if k < i then from[k] else old(to[k])
    {
      to[i] := from[i];
      i := i + 1;
    }
  }

  /** n buffers from malloc */
  method Allocate(n: nat, bytes: nat) returns (buffers: seq<array<bv8>>)
    ensures |buffers| == n && fresh(buffers)
    ensures forall z :: 0 <= z < n ==> buffers[z].Length == bytes
    ensures forall y, z :: 0 <= y < z < n ==> buffers[y] != buffers[z]
  {
    buffers := [];
    while |buffers| < n
      invariant |buffers| <= n && fresh(buffers)
      invariant forall z :: 0 <= z < |buffers| ==> buffers[z].Length == bytes
      invariant forall y, z :: 0 <= y < z < |buffers| ==> buffers[y] != buffers[z]
    {
      var buffer := new bv8[bytes];
      buffers := buffers + [buffer];
    }
  }

  /** The marshalling struct `actual_snc` with the kernel's buffers behind it. */
  class ActualSnc {
    var disks: int
    var bytes: nat
    var ptrs: seq<array<bv8>>

    /** A container as gen_syndrome's callers hand it over, with buffers of its size. */
    ghost predicate Valid()
      reads this
    {
      Call(disks, ptrs) && AtLeast(ptrs, bytes)
    }

    /** The size is a whole number of words and an int offset. */
    ghost predicate WholeWords(wide: bool)
      reads this
    {
      bytes % NSize(wide) == 0 && bytes < INT_LIMIT
    }

    ghost function P(): (disk: array<bv8>)
      requires Valid()
      reads this
    {
      ptrs[disks - 2]
    }

    ghost function Q(): (disk: array<bv8>)
      requires Valid()
      reads this
    {
      ptrs[disks - 1]
    }

    ghost function Disks(): (data: seq<seq<bv8>>)
      requires Valid()
      reads this, ptrs
      ensures |data| == disks - 2 && forall z :: 0 <= z < |data| ==> data[z] == ptrs[z][..] && bytes <= |data[z]|
    {
      Contents(ptrs[..disks - 2])
    }

    /** pread of the device: the offset selects the disk. */
    method BarracudaRead(user: array<bv8>, toCopy: nat, off: nat)
      requires off < |ptrs| && toCopy <= ptrs[off].Length && toCopy <= user.Length && user != ptrs[off]
      modifies user
      ensures user[..] == ptrs[off][..toCopy] + old(user[..])[toCopy..]
    {
      CopyBytes(user, ptrs[off], toCopy);
    }

    /** pwrite of the device */
    method BarracudaWrite(user: array<bv8>, toCopy: nat, off: nat)
      requires off < |ptrs| && toCopy <= ptrs[off].Length && toCopy <= user.Length && user != ptrs[off]
      modifies ptrs[off]
      ensures ptrs[off][..] == user[..toCopy] + old(ptrs[off][..])[toCopy..]
    {
      CopyBytes(ptrs[off], user, toCopy);
    }

    /** `copy_act_syndrome_block`: new buffers, all different, the data disks filled from the kernel. */
    method CopyActSyndromeBlock() returns (dptrs: seq<array<bv8>>)
      requires Valid()
      ensures |dptrs| == disks && fresh(dptrs)
      ensures forall z :: 0 <= z < disks ==> dptrs[z].Length == bytes
      ensures forall y, z :: 0 <= y < z < disks ==> dptrs[y] != dptrs[z]
      ensures Contents(dptrs[..disks - 2]) == Heads(Disks(), bytes)
    {
      hide Contents, Heads, Call;
      CallParts(disks, ptrs);
      dptrs := Allocate(disks, bytes);
      var i := 0;
      while i < disks - 2
        invariant 0 <= i <= disks - 2
        invariant forall z :: 0 <= z < i ==> dptrs[z][..] == ptrs[z][..bytes]
      {
        BarracudaRead(dptrs[i], bytes, i);
        assert dptrs[i][..] == ptrs[i][..bytes];
        i := i + 1;
      }
      forall z | 0 <= z < disks - 2
        ensures Contents(dptrs[..disks - 2])[z] == Heads(Disks(), bytes)[z]
      {
        assert dptrs[..disks - 2][z] == dptrs[z];
      }
    }

    /** `copyback_act_syndrome_block`: only the two check disks are written back. */
    method CopybackActSyndromeBlock(dptrs: seq<array<bv8>>)
      requires Valid() && |dptrs| == disks && forall z :: 0 <= z < disks ==> dptrs[z].Length == bytes
      requires forall y, z :: 0 <= y < disks && 0 <= z < disks ==> dptrs[y] != ptrs[z]
      modifies P(), Q()
      ensures P()[..] == dptrs[disks - 2][..] + old(P()[..])[bytes..]
      ensures Q()[..] == dptrs[disks - 1][..] + old(Q()[..])[bytes..]
    {
      BarracudaWrite(dptrs[disks - 2], bytes, disks - 2);
      BarracudaWrite(dptrs[disks - 1], bytes, disks - 1);
      assert dptrs[disks - 2][..bytes] == dptrs[disks - 2][..] && dptrs[disks - 1][..bytes] == dptrs[disks - 1][..];
    }

    /** The copies, encoded; the kernel's buffers are not touched. */
    method EncodeCopies(wide: bool) returns (dptrs: seq<array<bv8>>)
      requires Valid() && WholeWords(wide)
      ensures |dptrs| == disks && fresh(dptrs) && forall z :: 0 <= z < disks ==> dptrs[z].Length == bytes
      ensures dptrs[disks - 2][..] == PBuffer(Heads(Disks(), bytes), bytes)
      ensures dptrs[disks - 1][..] == QBuffer(Heads(Disks(), bytes), bytes)
    {
      hide PBuffer, QBuffer, Encoded, RoundUp, Contents, Heads;
      dptrs := CopyActSyndromeBlock();
      RoundUpWhole(bytes, NSize(wide));
      VanillaGenSyndrome(wide, disks, bytes, dptrs);
      EncodedWhole(Heads(Disks(), bytes), dptrs[disks - 2][..], dptrs[disks - 1][..], bytes);
    }

    /** One round of the server's loop with COPY_MARSHALLING. */
    method ServeCopied(wide: bool)
      requires Valid() && WholeWords(wide)
      modifies P(), Q()
      ensures Disks() == old(Disks())
      ensures P()[..] == PBuffer(Heads(Disks(), bytes), bytes) + old(P()[..])[bytes..]
      ensures Q()[..] == QBuffer(Heads(Disks(), bytes), bytes) + old(Q()[..])[bytes..]
    {
      hide PBuffer, QBuffer, Contents, Heads;
      var dptrs := EncodeCopies(wide);
      CopybackActSyndromeBlock(dptrs);
    }

    /** One round of the server's loop with mapped buffers: get_act_syndrome_block maps page i to the buffer i - 1, so
        the encoder works in the kernel's buffers. */
    method ServeMapped(wide: bool)
      requires Valid() && WholeWords(wide)
      modifies P(), Q()
      ensures Disks() == old(Disks())
      ensures P()[..] == PBuffer(Heads(Disks(), bytes), bytes) + old(P()[..])[bytes..]
      ensures Q()[..] == QBuffer(Heads(Disks(), bytes), bytes) + old(Q()[..])[bytes..]
    {
      hide PBuffer, QBuffer, Encoded, RoundUp;
      var dptrs: seq<array<bv8>> := [];
      var i := 1;
      while i <= disks
        invariant 1 <= i <= disks + 1
        invariant dptrs == ptrs[..i - 1]
      {
        dptrs := dptrs + [ptrs[i - 1]];
        i := i + 1;
      }
      assert dptrs == ptrs;
      RoundUpWhole(bytes, NSize(wide));
      VanillaGenSyndrome(wide, disks, bytes, dptrs);
      EncodedBuffers(Disks(), P()[..], Q()[..], old(P()[..]), old(Q()[..]), bytes);
    }
  }

  lemma CallParts(disks: int, ptrs: seq<array<bv8>>)
    requires Call(disks, ptrs)
    ensures 3 <= disks == |ptrs|
  {}

  lemma RoundUpWhole(bytes: nat, n: nat)
    requires (n == 4 || n == 8) && bytes % n == 0 && bytes < INT_LIMIT
    ensures RoundUp(bytes, n) == bytes && bytes + n <= INT_LIMIT
  {
    var k := bytes / n;
    if n == 4 {
      assert bytes == 4 * k && (4 * k + 3) / 4 == k;
    } else {
      assert bytes == 8 * k && (8 * k + 7) / 8 == k;
    }
  }
}
