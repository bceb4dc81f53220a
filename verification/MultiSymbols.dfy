/** What the multi-failure encoder's symbols are worth: when its tables suffice, when they give the field
    symbols, and how those relate to P, Q and to each other. */
module MultiSymbols {
  import opened GF256
  import opened Tables
  import opened Logarithms
  import opened MultGf
  import opened Syndrome
  import opened Erasure
  import opened MultiRs

  predicate IsRow(r: bv8) {
    r == 1 || r == 2 || r == 3 || r == 4
  }

  /** The logarithm of a row number. */
  function RowLog(r: bv8): (log: Exponent) {
    match r
    case 1 => 0
    case 2 => 1
    case 3 => 25
    case _ => 2
  }

  lemma RowLogIsLog(r: bv8)
    requires IsRow(r)
    ensures LogOf(r) == RowLog(r) && Exp(RowLog(r)) == r
  {
    hide LogOf, Exp, GfLog;
    LiteralLogs();
    LogOne();
    GfLogIsLog(r);
    ExpLog(r);
  }

  lemma LiteralLogs()
    ensures GfLog(2) == 1 && GfLog(3) == 25 && GfLog(4) == 2 && GfLog(254) == 88 && GfLog(142) == 254
  {}

  // ----- The matrix entries -----

  lemma PowerBelow255(k: Exponent)
    ensures Exp(k) == 255 <==> k == 175
  {
    hide LogOf, Exp;
    LogExp(k);
    Log255();
    ExpLog(255);
  }

  lemma Log255()
    ensures LogOf(255) == 175
  {
    hide LogOf;
    ByteLast();
    ClosedLogLast();
  }

  lemma ByteLast()
    ensures LogOf(255) == ClosedLog(255)
  {}

  /** While the exponents stay small, stepping by the table product multiplies by the row number. */
  lemma {:induction false} CoefficientIsPower(r: bv8, d: nat, stray: nat)
    requires IsRow(r) && stray < 256 && RowLog(r) * (d + 1) <= 175
    ensures Coefficient(r, d, stray) == Exp(RowLog(r) * (d + 1))
  {
    hide LogOf, Exp, TableProduct, Mul, Halve;
    RowLogIsLog(r);
    if d > 0 {
      var k := RowLog(r) * d;
      CoefficientIsPower(r, d - 1, stray);
      PowerBelow255(k);
      PowerBelow255(RowLog(r));
      LogExp(k);
      TableProductMeaning(Exp(k), r, stray);
      ExpAdd(k, RowLog(r));
    }
  }

  lemma {:induction false} CoefficientNonZero(r: bv8, d: nat, stray: nat)
    requires r != 0 && stray < 256
    ensures Coefficient(r, d, stray) != 0
  {
    hide TableProduct;
    if d > 0 {
      CoefficientNonZero(r, d - 1, stray);
      TableProductNonZero(Coefficient(r, d - 1, stray), r, stray);
    }
  }

  /** How every matrix entry follows from the one before, in the tables or behind them: the row's logarithm is added to
      what the table yields, and a sum above 255 loses 256. */
  lemma EntryStep(r: bv8, d: nat, stray: nat)
    requires IsRow(r) && stray < 256
    ensures Coefficient(r, 0, stray) == r
    ensures Coefficient(r, d, stray) != 0
    ensures var sum := LogRead(Coefficient(r, d, stray), stray) + RowLog(r);
            Coefficient(r, d + 1, stray) == Exp(if sum <= 255 then sum else sum - 256)
  {
    hide TableProduct, Exp, LogOf, LogRead;
    CoefficientNonZero(r, d, stray);
    RowLogIsLog(r);
    TableProductAlways(Coefficient(r, d, stray), r, stray);
    RowLogRead(r, stray);
  }

  lemma RowLogRead(r: bv8, stray: nat)
    requires IsRow(r) && stray < 256
    ensures LogRead(r, stray) == LogOf(r)
  {
    hide LogOf;
  }

  /** After an entry 255 the byte behind the table counts as its logarithm. */
  lemma EntryAfter255(r: bv8, d: nat, stray: nat)
    requires IsRow(r) && stray < 256 && Coefficient(r, d, stray) == 255
    ensures stray + RowLog(r) <= 254 ==> Coefficient(r, d + 1, stray) == Exp(stray + RowLog(r))
    ensures stray + RowLog(r) == 255 ==> Coefficient(r, d + 1, stray) == 1
    ensures stray + RowLog(r) > 255 ==> Coefficient(r, d + 1, stray) == Exp(stray + RowLog(r) - 256)
  {
    hide Coefficient, Exp, RowLog;
    EntryStep(r, d, stray);
    ExpEqual(0, 255);
    ExpZero();
  }

  /** What a data byte contributes is likewise known in all cases, so every symbol that is written is. */
  lemma ContributionAlways(r: bv8, d: nat, v: bv8, stray: nat)
    requires IsRow(r) && stray < 256
    ensures v == 0 ==> TableProduct(Coefficient(r, d, stray), v, stray) == 0
    ensures Coefficient(r, d, stray) != 0
    ensures v != 0 ==>
              var sum := LogRead(Coefficient(r, d, stray), stray) + LogRead(v, stray);
              TableProduct(Coefficient(r, d, stray), v, stray) == Exp(if sum <= 255 then sum else sum - 256)
  {
    hide TableProduct, Coefficient, Exp, LogRead;
    CoefficientNonZero(r, d, stray);
    TableProductAlways(Coefficient(r, d, stray), v, stray);
  }

  /** With the byte 0 behind the table the eighth entry of row three is 3 again. */
  lemma EighthEntry()
    ensures Coefficient(3, 6, 0) == 255 && Coefficient(3, 7, 0) == 3
  {
    hide Coefficient, Exp;
    CoefficientIsPower(3, 6, 0);
    PowerBelow255(175);
    EntryAfter255(3, 6, 0);
    RowLogIsLog(3);
  }

  // ----- When the encoder stays inside its tables -----

  /** The table accesses of row r at disk d: one product with the data byte, one to step the matrix entry. */
  predicate DiskInTable(r: bv8, d: nat, byte: bv8, stray: nat)
    requires stray < 256
  {
    ReadsInTable(Coefficient(r, d, stray), byte) && ReadsInTable(Coefficient(r, d, stray), r)
  }

  /** All table accesses for one byte column. */
  ghost predicate ColumnInTable(column: seq<bv8>, stray: nat)
    requires stray < 256
  {
    forall r, d :: IsRow(r) && 0 <= d < |column| ==> DiskInTable(r, d, column[d], stray)
  }

  lemma DiskInTableExactly(r: bv8, d: nat, byte: bv8, stray: nat)
    requires IsRow(r) && stray < 256
    ensures DiskInTable(r, d, byte, stray) <==> Coefficient(r, d, stray) != 255 && byte != 255
  {
    hide TableProduct;
    CoefficientNonZero(r, d, stray);
  }

  /** The encoder reads gflog out of bounds, at index 255, unless there are at most six data disks and no data
      byte is 255: with a seventh disk, the matrix entry of row three is 3^7 = 255. */
  lemma ColumnInTableExactly(column: seq<bv8>, stray: nat)
    requires stray < 256
    ensures ColumnInTable(column, stray) <==> |column| <= 6 && forall d :: 0 <= d < |column| ==> column[d] != 255
  {
    hide TableProduct, DiskInTable, ReadsInTable;
    if |column| > 6 {
      CoefficientIsPower(3, 6, stray);
      PowerBelow255(175);
      DiskInTableExactly(3, 6, column[6], stray);
    } else {
      forall r, d | IsRow(r) && 0 <= d < |column|
        ensures DiskInTable(r, d, column[d], stray) <==> column[d] != 255
      {
        SmallCoefficient(r, d, stray);
        DiskInTableExactly(r, d, column[d], stray);
      }
      if ColumnInTable(column, stray) {
        forall d | 0 <= d < |column|
          ensures column[d] != 255
        {
          assert IsRow(1);
          assert DiskInTable(1, d, column[d], stray);
        }
      }
    }
  }

  lemma SmallCoefficient(r: bv8, d: nat, stray: nat)
    requires IsRow(r) && d < 6 && stray < 256
    ensures Coefficient(r, d, stray) != 255
  {
    hide TableProduct, Exp;
    var k := RowLog(r) * (d + 1);
    assert k <= 150;
    CoefficientIsPower(r, d, stray);
    PowerBelow255(k);
  }

  // ----- The symbols over the field -----

  /** The check symbol that the encoder documents: the sum of r^(d+1) D[d], over the field product. */
  function FieldSymbol(r: bv8, column: seq<bv8>): (symbol: bv8) {
    if |column| == 0 then 0
    else
      var d := |column| - 1;
      Add(FieldSymbol(r, column[..d]), Mul(Pow(r, d + 1), column[d]))
  }

  lemma {:induction false} FieldSymbolIsRow(r: bv8, column: seq<bv8>)
    ensures FieldSymbol(r, column) == RowSymbol(r, column)
  {
    hide Add, Mul;
    if |column| == 0 {
      MulZero(r);
    } else {
      var d := |column| - 1;
      FieldSymbolIsRow(r, column[..d]);
      MulAssoc(r, Pow(r, d), column[d]);
      MulAddRight(r, PowerSum(r, column[..d]), Mul(Pow(r, d), column[d]));
    }
  }

  /** Row one is P, and row two is twice Q, of the P/Q encoders. */
  lemma RowsAndPQ(column: seq<bv8>)
    ensures FieldSymbol(1, column) == PByte(column)
    ensures FieldSymbol(2, column) == Double(QByte(column))
  {
    hide Add, Mul, PowerSum, Double;
    FieldSymbolIsRow(1, column);
    FieldSymbolIsRow(2, column);
    ParityIsPowerSum(column);
    MulOne(PowerSum(1, column));
    MulTwo(PowerSum(2, column));
  }

  // ----- When the written symbols are the field symbols -----

  predicate No255(column: seq<bv8>) {
    forall d :: 0 <= d < |column| ==> column[d] != 255
  }

  /** Row one is the plain parity, even with the product as written. */
  lemma {:induction false} RowOneIsParity(column: seq<bv8>, stray: nat)
    requires stray < 256 && No255(column)
    ensures WrittenSymbol(1, column, stray) == Parity(column)
  {
    hide Add, TableProduct;
    if |column| > 0 {
      var d := |column| - 1;
      RowOneIsParity(column[..d], stray);
      CoefficientOne(d, stray);
      TableProductOne(column[d], stray);
    }
  }

  lemma {:induction false} CoefficientOne(d: nat, stray: nat)
    requires stray < 256
    ensures Coefficient(1, d, stray) == 1
  {
    hide TableProduct;
    if d > 0 {
      CoefficientOne(d - 1, stray);
      TableProductOne(1, stray);
    }
  }

  /** On all columns of n bytes below 255, row r of the encoder is the field's. */
  ghost predicate RowExact(r: bv8, n: nat) {
    forall column, stray: nat | |column| == n && stray < 256 && No255(column) ::
      WrittenSymbol(r, column, stray) == FieldSymbol(r, column)
  }

  /** The column with the byte 142 = 2^254 on disk d, and zeros. */
  function Spike(n: nat, d: nat): (s: seq<bv8>)
    requires d < n
    ensures |s| == n
  {
    seq(n, z => if z == d then 142 else 0)
  }

  lemma {:induction false} WrittenZeros(r: bv8, column: seq<bv8>, stray: nat)
    requires stray < 256 && forall z :: 0 <= z < |column| ==> column[z] == 0
    ensures WrittenSymbol(r, column, stray) == 0
  {
    hide Add, GfLog, GfIlog;
    if |column| > 0 {
      WrittenZeros(r, column[..|column| - 1], stray);
      AddLaws(0, 0);
    }
  }

  lemma {:induction false} WrittenSpike(r: bv8, column: seq<bv8>, d: nat, stray: nat)
    requires stray < 256 && d < |column| && forall z :: 0 <= z < |column| && z != d ==> column[z] == 0
    ensures WrittenSymbol(r, column, stray) == TableProduct(Coefficient(r, d, stray), column[d], stray)
    decreases |column|
  {
    hide Add, GfLog, GfIlog, ReadLog;
    var last := |column| - 1;
    var head := WrittenSymbol(r, column[..last], stray);
    var tail := TableProduct(Coefficient(r, last, stray), column[last], stray);
    assert WrittenSymbol(r, column, stray) == Add(head, tail);
    if d == last {
      WrittenZeros(r, column[..last], stray);
      AddLaws(tail, 0);
    } else {
      assert column[last] == 0 && column[..last][d] == column[d];
      assert tail == 0;
      WrittenSpike(r, column[..last], d, stray);
      AddLaws(head, 0);
    }
  }

  lemma FieldSpike(r: bv8, column: seq<bv8>, d: nat)
    requires d < |column| && forall z :: 0 <= z < |column| && z != d ==> column[z] == 0
    ensures FieldSymbol(r, column) == Mul(Pow(r, d + 1), column[d])
  {
    hide Mul, PowerSum;
    FieldSymbolIsRow(r, column);
    OneTerm(r, column, d);
    MulAssoc(r, Pow(r, d), column[d]);
  }

  /** A byte of logarithm 254 on disk d overflows the unsigned char if the matrix entry there is 2^k, 1 < k <= 174. */
  lemma SpikeDiffers(r: bv8, n: nat, d: nat, stray: nat)
    requires IsRow(r) && d < n && stray < 256
    requires 1 < RowLog(r) * (d + 1) <= 174
    ensures No255(Spike(n, d)) && WrittenSymbol(r, Spike(n, d), stray) != FieldSymbol(r, Spike(n, d))
  {
    hide Mul, Exp, LogOf, GfLog, TableProduct, Pow;
    var s := Spike(n, d);
    var k := RowLog(r) * (d + 1);
    WrittenSpike(r, s, d, stray);
    FieldSpike(r, s, d);
    CoefficientIsPower(r, d, stray);
    PowerIsExp(r, d + 1);
    PowerBelow255(k);
    LogExp(k);
    LiteralLogs();
    Log142();
    TableProductExact(Exp(k), 142, stray);
  }

  lemma Log142()
    ensures LogOf(142) == 254
  {
    hide LogOf, GfLog;
    GfLogIsLog(142);
    LiteralLogs();
  }

  lemma {:induction false} PowerIsExp(r: bv8, k: nat)
    requires IsRow(r)
    ensures Pow(r, k) == Exp(RowLog(r) * k)
  {
    hide Mul, Exp;
    RowLogIsLog(r);
    if k == 0 {
      ExpZero();
    } else {
      PowerIsExp(r, k - 1);
      ExpAdd(RowLog(r), RowLog(r) * (k - 1));
      assert RowLog(r) + RowLog(r) * (k - 1) == RowLog(r) * k;
    }
  }

  lemma RowTwoSingle(column: seq<bv8>, stray: nat)
    requires |column| == 1 && stray < 256 && No255(column)
    ensures WrittenSymbol(2, column, stray) == FieldSymbol(2, column)
  {
    hide Mul, LogOf, GfLog, GfIlog;
    WrittenSpike(2, column, 0, stray);
    FieldSpike(2, column, 0);
    PowSingle();
    RowLogIsLog(2);
    TableProductExact(2, column[0], stray);
  }

  lemma PowSingle()
    ensures Pow(2, 1) == 2
  {
    MulOne(2);
  }

  /** Row one is always the field's; row two only for one data disk; rows three and four for none. */
  lemma RowExactly(r: bv8, n: nat)
    requires IsRow(r)
    ensures RowExact(r, n) <==> r == 1 || n == 0 || (r == 2 && n == 1)
  {
    hide WrittenSymbol, FieldSymbol, Spike;
    if r == 1 {
      forall column, stray: nat | |column| == n && stray < 256 && No255(column)
        ensures WrittenSymbol(1, column, stray) == FieldSymbol(1, column)
      {
        RowOneIsParity(column, stray);
        RowsAndPQ(column);
      }
    } else if n == 0 {
      forall column, stray: nat | |column| == 0 && stray < 256
        ensures WrittenSymbol(r, column, stray) == FieldSymbol(r, column)
      {
        EmptySymbols(r, column, stray);
      }
    } else if r == 2 && n == 1 {
      forall column, stray: nat | |column| == 1 && stray < 256 && No255(column)
        ensures WrittenSymbol(2, column, stray) == FieldSymbol(2, column)
      {
        RowTwoSingle(column, stray);
      }
    } else {
      var d := if r == 2 then 1 else 0;
      SpikeDiffers(r, n, d, 0);
    }
  }

  lemma EmptySymbols(r: bv8, column: seq<bv8>, stray: nat)
    requires |column| == 0 && stray < 256
    ensures WrittenSymbol(r, column, stray) == FieldSymbol(r, column)
  {}
}
