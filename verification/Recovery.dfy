/** Recovery of lost disks in their buffers, with the interface that the kernel declares. */
module Recovery {
  import opened Syndrome
  import opened Erasure
  import opened Encoder

  /** No disk shares its buffer with disk x. */
  predicate Alone(ptrs: seq<array<bv8>>, x: nat)
    requires x < |ptrs|
  {
    forall z :: 0 <= z < |ptrs| && z != x ==> ptrs[z] != ptrs[x]
  }

  /** The data disks outside `lost` hold the stripe. */
  ghost predicate Intact(ptrs: seq<array<bv8>>, data: seq<seq<bv8>>, lost: set<int>, bytes: nat)
    reads ptrs
  {
    && |data| <= |ptrs|
    && forall z :: 0 <= z < |data| && z !in lost ==>
         bytes <= |data[z]| && bytes <= ptrs[z].Length && ptrs[z][..bytes] == data[z][..bytes]
  }

  /** The bytes at one offset of the data disks. */
  method ReadColumn(n: nat, ptrs: seq<array<bv8>>, i: nat) returns (column: seq<bv8>)
    requires n <= |ptrs| && AtLeast(ptrs, i + 1)
    ensures |column| == n && forall z :: 0 <= z < n ==> column[z] == ptrs[z][i]
  {
    column := [];
    while |column| < n
      invariant |column| <= n && forall z :: 0 <= z < |column| ==> column[z] == ptrs[z][i]
    {
      column := column + [ptrs[|column|][i]];
    }
  }

  lemma ColumnAgrees(ptrs: seq<array<bv8>>, data: seq<seq<bv8>>, lost: set<int>, bytes: nat, i: nat, column: seq<bv8>)
    requires i < bytes && Intact(ptrs, data, lost, bytes) && (forall z :: 0 <= z < |data| ==> bytes <= |data[z]|)
    requires AtLeast(ptrs, bytes) && |column| == |data| && forall z :: 0 <= z < |data| ==> column[z] == ptrs[z][i]
    ensures AgreeOutside(Column(data, i), column, lost)
  {
    forall z | 0 <= z < |data| && z !in lost
      ensures column[z] == data[z][i]
    {
      assert ptrs[z][..bytes][i] == data[z][..bytes][i];
    }
  }

  /** raid6_2data_recov: two data disks are rebuilt from P and Q, in place. */
  method TwoDataRecov(disks: int, bytes: nat, faila: nat, failb: nat, ptrs: seq<array<bv8>>, ghost data: seq<seq<bv8>>)
    requires Call(disks, ptrs) && disks <= 257 && AtLeast(ptrs, bytes) && |data| == disks - 2
    requires faila != failb && faila < disks - 2 && failb < disks - 2 && Alone(ptrs, faila) && Alone(ptrs, failb)
    requires Encoded(data, ptrs[disks - 2][..], ptrs[disks - 1][..], bytes) && Intact(ptrs, data, {faila, failb}, bytes)
    modifies ptrs[faila], ptrs[failb]
    ensures Intact(ptrs, data, {}, bytes)
    ensures ptrs[faila][bytes..] == old(ptrs[faila][bytes..]) && ptrs[failb][bytes..] == old(ptrs[failb][bytes..])
  {
    hide PByte, QByte, RecoverTwoData;
    var i := 0;
    while i < bytes
      invariant 0 <= i <= bytes
      invariant Intact(ptrs, data, {faila, failb}, bytes)
      invariant forall o :: 0 <= o < i ==> ptrs[faila][o] == data[faila][o] && ptrs[failb][o] == data[failb][o]
      invariant ptrs[faila][bytes..] == old(ptrs[faila][bytes..]) && ptrs[failb][bytes..] == old(ptrs[failb][bytes..])
    {
      var column := ReadColumn(disks - 2, ptrs, i);
      ColumnAgrees(ptrs, data, {faila, failb}, bytes, i, column);
      RecoverTwoDataInverts(Column(data, i), column, faila, failb);
      var whole := RecoverTwoData(column, faila, failb, ptrs[disks - 2][i], ptrs[disks - 1][i]);
      ptrs[faila][i] := whole[faila];
      ptrs[failb][i] := whole[failb];
      i := i + 1;
    }
    assert ptrs[faila][..bytes] == data[faila][..bytes] && ptrs[failb][..bytes] == data[failb][..bytes];
  }

  /** raid6_datap_recov: a data disk is rebuilt from Q, and then P from the data, in place. */
  method DataPRecov(disks: int, bytes: nat, faila: nat, ptrs: seq<array<bv8>>, ghost data: seq<seq<bv8>>)
    requires Call(disks, ptrs) && AtLeast(ptrs, bytes) && |data| == disks - 2 && faila < disks - 2 && Alone(ptrs, faila)
    requires forall z :: 0 <= z < |data| ==> bytes <= |data[z]|
    requires forall o :: 0 <= o < bytes ==> ptrs[disks - 1][o] == QByte(Column(data, o))
    requires Intact(ptrs, data, {faila}, bytes)
    modifies ptrs[faila], ptrs[disks - 2]
    ensures Intact(ptrs, data, {}, bytes) && Encoded(data, ptrs[disks - 2][..], ptrs[disks - 1][..], bytes)
    ensures ptrs[faila][bytes..] == old(ptrs[faila][bytes..]) &&
            ptrs[disks - 2][bytes..] == old(ptrs[disks - 2][bytes..])
  {
    hide QByte, RecoverData, Parity;
    var i := 0;
    while i < bytes
      invariant 0 <= i <= bytes
      invariant Intact(ptrs, data, {faila}, bytes)
      invariant forall o :: 0 <= o < i ==>
                  ptrs[faila][o] == data[faila][o] && ptrs[disks - 2][o] == PByte(Column(data, o))
      invariant ptrs[faila][bytes..] == old(ptrs[faila][bytes..]) &&
                ptrs[disks - 2][bytes..] == old(ptrs[disks - 2][bytes..])
    {
      var column := ReadColumn(disks - 2, ptrs, i);
      ColumnAgrees(ptrs, data, {faila}, bytes, i, column);
      RecoverDataInverts(Column(data, i), column, faila);
      var whole := RecoverData(column, faila, ptrs[disks - 1][i]);
      ptrs[faila][i] := whole[faila];
      ptrs[disks - 2][i] := PByte(whole);
      i := i + 1;
    }
    assert ptrs[faila][..bytes] == data[faila][..bytes];
  }
}
