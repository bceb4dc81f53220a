/** The multi-failure encoder: four check symbols from a power matrix and the table product. */
module MultiRs {
  import opened GF256
  import opened MultGf
  import opened Syndrome
  import opened Encoder

  const CHECK_SYMBOLS := 4

  /** The matrix entry the encoder holds for disk d in row r, stepped by the table product. */
  function Coefficient(r: bv8, d: nat, stray: nat): (entry: bv8)
    requires stray < 256
  {
    if d == 0 then r else TableProduct(Coefficient(r, d - 1, stray), r, stray)
  }

  /** The check symbol as the encoder writes it. */
  function WrittenSymbol(r: bv8, column: seq<bv8>, stray: nat): (symbol: bv8)
    requires stray < 256
  {
    if |column| == 0 then 0
    else
      var d := |column| - 1;
      Add(WrittenSymbol(r, column[..d], stray), TableProduct(Coefficient(r, d, stray), column[d], stray))
  }

  // ----- The encoder -----

  /** The data disks, then the four check disks, which alias neither one another nor a data disk. */
  predicate MultiCall(disks: int, ptrs: seq<array<bv8>>) {
    && CHECK_SYMBOLS <= disks == |ptrs|
    && (forall j, k :: 0 <= j < disks && disks - CHECK_SYMBOLS <= k < disks && j != k ==> ptrs[j] != ptrs[k])
  }

  /** The loop over the data disks, for one check disk and one offset. */
  method EncodeSymbol(c: array<bv8>, i: nat, matrix_pos_y: bv8, data: seq<array<bv8>>, stray: nat)
    requires stray < 256 && i < c.Length
    requires AtLeast(data, i + 1) && c !in data
    modifies c
    ensures c[..] == old(c[..])[i := WrittenSymbol(matrix_pos_y, Column(Contents(data), i), stray)]
  {
    hide TableProduct, Add, Contents;
    ghost var column := Column(Contents(data), i);
    var matrix_pos_x := matrix_pos_y;
    c[i] := 0;
    var d := 0;
    assert column[..0] == [];
    while d < |data|
      invariant 0 <= d <= |data|
      invariant Contents(data) == old(Contents(data))
      invariant matrix_pos_x == Coefficient(matrix_pos_y, d, stray)
      invariant c[..] == old(c[..])[i := WrittenSymbol(matrix_pos_y, column[..d], stray)]
    {
      assert column[..d + 1][..d] == column[..d];
      c[i] := Add(c[i], TableProduct(matrix_pos_x, data[d][i], stray));
      matrix_pos_x := TableProduct(matrix_pos_x, matrix_pos_y, stray);
      d := d + 1;
    }
    assert column[..d] == column;
  }

  /** The r-th check disk (r = 1..4) is written up to offset `done` and as before from there on. */
  predicate RowDone(data: seq<seq<bv8>>, before: seq<bv8>, c: seq<bv8>, r: bv8, done: nat, stray: nat)
    requires stray < 256
  {
    && |c| == |before| && done <= |c| && (forall z :: 0 <= z < |data| ==> done <= |data[z]|)
    && c[done..] == before[done..]
    && forall o :: 0 <= o < done ==> c[o] == WrittenSymbol(r, Column(data, o), stray)
  }

  lemma RowStep(data: seq<seq<bv8>>, before: seq<bv8>, c: seq<bv8>, r: bv8, i: nat, stray: nat)
    requires stray < 256 && RowDone(data, before, c, r, i, stray) && i < |c|
    requires forall z :: 0 <= z < |data| ==> i < |data[z]|
    ensures RowDone(data, before, c[i := WrittenSymbol(r, Column(data, i), stray)], r, i + 1, stray)
  {
    hide WrittenSymbol;
    var c' := c[i := WrittenSymbol(r, Column(data, i), stray)];
    assert c'[i + 1..] == c[i..][1..] && before[i..][1..] == before[i + 1..];
  }

  lemma RowStepAt(buffers: seq<array<bv8>>, before: seq<bv8>, c: seq<bv8>, r: bv8, i: nat, stray: nat)
    requires stray < 256 && RowDone(Contents(buffers), before, c, r, i, stray) && i < |c|
    requires AtLeast(buffers, i + 1)
    ensures RowDone(Contents(buffers), before, c[i := WrittenSymbol(r, Column(Contents(buffers), i), stray)], r, i + 1,
            stray)
  {
    RowStep(Contents(buffers), before, c, r, i, stray);
  }

  lemma RowStart(data: seq<seq<bv8>>, c: seq<bv8>, r: bv8, stray: nat)
    requires stray < 256
    ensures RowDone(data, c, c, r, 0, stray)
  {}

  /** The row number of check disk j. */
  function RowOf(j: nat): (row: bv8) {
    match j
    case 0 => 1
    case 1 => 2
    case 2 => 3
    case _ => 4
  }

  /** The loop over the check disks, for one offset. */
  method EncodeOffset(disks: int, i: nat, ptrs: seq<array<bv8>>, stray: nat)
    requires MultiCall(disks, ptrs) && AtLeast(ptrs, i + 1) && stray < 256
    modifies ptrs[disks - CHECK_SYMBOLS..]
    ensures Contents(ptrs[..disks - CHECK_SYMBOLS]) == old(Contents(ptrs[..disks - CHECK_SYMBOLS]))
    ensures forall k :: disks - CHECK_SYMBOLS <= k < disks ==>
              ptrs[k][..] == old(ptrs[k][..])[i := WrittenSymbol(RowOf(k - (disks - CHECK_SYMBOLS)),
                                                                 Column(Contents(ptrs[..disks - CHECK_SYMBOLS]), i),
                                                                     stray)]
  {
    hide Contents, WrittenSymbol, TableProduct;
    var high_disk := disks - CHECK_SYMBOLS;
    ghost var column := Column(Contents(ptrs[..high_disk]), i);
    var matrix_pos_y: bv8 := 0;
    var j := high_disk;
    while j < disks
      invariant high_disk <= j <= disks
      invariant matrix_pos_y == if j == high_disk then 0 else RowOf(j - high_disk - 1)
      invariant Contents(ptrs[..high_disk]) == old(Contents(ptrs[..high_disk]))
      invariant forall k :: high_disk <= k < j ==>
                  ptrs[k][..] == old(ptrs[k][..])[i := WrittenSymbol(RowOf(k - high_disk), column, stray)]
      invariant forall k :: j <= k < disks ==> ptrs[k][..] == old(ptrs[k][..])
    {
      NextRow(j - high_disk);
      matrix_pos_y := matrix_pos_y + 1;
      assert forall k :: high_disk <= k < disks && k != j ==> ptrs[k] != ptrs[j];
      EncodeSymbol(ptrs[j], i, matrix_pos_y, ptrs[..high_disk], stray);
      j := j + 1;
    }
  }

  lemma NextRow(j: nat)
    requires j < CHECK_SYMBOLS
    ensures RowOf(j) == (if j == 0 then 0 else RowOf(j - 1)) + 1
  {}

  /** `multi_rs_soft_gen_syndrome`: every check disk holds the written symbol of its row up to `bytes`, and the
      rest of it, like the data disks, is unchanged. */
  method MultiRsSoftGenSyndrome(disks: int, bytes: nat, ptrs: seq<array<bv8>>, stray: nat)
    requires MultiCall(disks, ptrs) && AtLeast(ptrs, bytes) && bytes < INT_LIMIT && stray < 256
    modifies ptrs[disks - CHECK_SYMBOLS..]
    ensures Contents(ptrs[..disks - CHECK_SYMBOLS]) == old(Contents(ptrs[..disks - CHECK_SYMBOLS]))
    ensures forall k :: disks - CHECK_SYMBOLS <= k < disks ==>
              RowDone(Contents(ptrs[..disks - CHECK_SYMBOLS]), old(ptrs[k][..]), ptrs[k][..],
                      RowOf(k - (disks - CHECK_SYMBOLS)), bytes, stray)
  {
    hide RowDone, Contents, WrittenSymbol, TableProduct, RowOf;
    var high_disk := disks - CHECK_SYMBOLS;
    ghost var data := Contents(ptrs[..high_disk]);
    forall k | high_disk <= k < disks
      ensures RowDone(data, ptrs[k][..], ptrs[k][..], RowOf(k - high_disk), 0, stray)
    {
      RowStart(data, ptrs[k][..], RowOf(k - high_disk), stray);
    }
    var i := 0;
    while i < bytes
      invariant 0 <= i <= bytes
      invariant Contents(ptrs[..high_disk]) == data
      invariant forall k :: high_disk <= k < disks ==>
                  RowDone(data, old(ptrs[k][..]), ptrs[k][..], RowOf(k - high_disk), i, stray)
    {
      forall k | high_disk <= k < disks
        ensures RowDone(data, old(ptrs[k][..]), ptrs[k][..][i := WrittenSymbol(RowOf(k - high_disk), Column(data, i),
                stray)],
                        RowOf(k - high_disk), i + 1, stray)
      {
        RowStepAt(ptrs[..high_disk], old(ptrs[k][..]), ptrs[k][..], RowOf(k - high_disk), i, stray);
      }
      EncodeOffset(disks, i, ptrs, stray);
      i := i + 1;
    }
  }
}
