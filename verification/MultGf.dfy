/** The table product `mult_gf` as the multi-failure encoder computes it, and the generation of its tables. */
module MultGf {
  import opened GF256
  import opened Tables
  import opened Logarithms

  /** gflog[n].  The literal table ends at index 254, so an access at 255 reads whatever byte follows it. */
  function ReadLog(n: nat, stray: nat): (k: nat)
    requires n < 256 && stray < 256
  {
    if n < 255 then GfLog(n) else stray
  }

  /** The product as written: the sum of the logarithms is kept in an unsigned char. */
  function TableProduct(a: bv8, b: bv8, stray: nat): (product: bv8)
    requires stray < 256
  {
    if a == 0 || b == 0 then 0
    else
      var sum := (ReadLog(a as nat, stray) + ReadLog(b as nat, stray)) % 256;
      GfIlog(if sum >= 255 then sum - 255 else sum)
  }

  /** Neither table is read out of bounds. */
  predicate ReadsInTable(a: bv8, b: bv8) {
    a == 0 || b == 0 || (a != 255 && b != 255)
  }

  lemma ReadLogIsLog(b: bv8, stray: nat)
    requires b != 0 && b != 255 && stray < 256
    ensures ReadLog(b as nat, stray) == LogOf(b)
  {
    GfLogIsLog(b);
  }

  lemma HalfNotSelf(a: bv8)
    requires a != 0
    ensures Halve(a) != a
  {}

  lemma ExpPredecessor(k: nat)
    requires k > 0
    ensures Exp(k - 1) == Halve(Exp(k))
  {
    DoubleHalve(Exp(k - 1));
  }

  /** What `mult_gf` returns: a sum of logarithms above 255 loses 256 instead of 255, which halves the product. */
  lemma TableProductMeaning(a: bv8, b: bv8, stray: nat)
    requires ReadsInTable(a, b) && stray < 256
    ensures a == 0 || b == 0 ==> TableProduct(a, b, stray) == Mul(a, b) == 0
    ensures a != 0 && b != 0 && LogOf(a) + LogOf(b) <= 255 ==> TableProduct(a, b, stray) == Mul(a, b)
    ensures a != 0 && b != 0 && LogOf(a) + LogOf(b) > 255 ==> TableProduct(a, b, stray) == Halve(Mul(a, b))
  {
    hide Mul, Exp, Double, Halve, LogOf, GfLog, GfIlog, ReadLog;
    if a == 0 || b == 0 {
      NoZeroDivisors(a, b);
    } else {
      ReadLogIsLog(a, stray);
      ReadLogIsLog(b, stray);
      MulByLogs(a, b);
      var sum := LogOf(a) + LogOf(b);
      if sum < 255 {
        GfIlogIsExp(sum);
      } else if sum == 255 {
        GfIlogIsExp(0);
        ExpEqual(0, 255);
      } else {
        GfIlogIsExp(sum - 256);
        ExpEqual(sum - 256, sum - 1);
        ExpPredecessor(sum);
      }
    }
  }

  /** The table product is the field product exactly when the logarithms do not overflow the char. */
  lemma TableProductExact(a: bv8, b: bv8, stray: nat)
    requires ReadsInTable(a, b) && stray < 256
    ensures TableProduct(a, b, stray) == Mul(a, b) <==> a == 0 || b == 0 || LogOf(a) + LogOf(b) <= 255
  {
    hide Mul, Halve, LogOf, TableProduct;
    TableProductMeaning(a, b, stray);
    if a != 0 && b != 0 && LogOf(a) + LogOf(b) > 255 {
      NoZeroDivisors(a, b);
      HalfNotSelf(Mul(a, b));
    }
  }

  lemma InTable(a: bv8, b: bv8, s: nat, t: nat)
    requires ReadsInTable(a, b) && s < 256 && t < 256
    ensures TableProduct(a, b, s) == TableProduct(a, b, t)
  {
    hide GfLog, GfIlog;
    TopByte(a);
    TopByte(b);
  }

  lemma TopByte(a: bv8)
    ensures a as nat == 255 <==> a == 255
  {}

  /** The product in terms of the sum of what is read. */
  lemma ProductOfSum(a: bv8, b: bv8, stray: nat, la: nat, lb: nat)
    requires a != 0 && b != 0 && stray < 256 && la == ReadLog(a as nat, stray) && lb == ReadLog(b as nat, stray)
    ensures (la + lb) % 256 < 255 ==> TableProduct(a, b, stray) == GfIlog((la + lb) % 256)
  {
    hide GfIlog, ReadLog;
  }

  /** The logarithm that the table yields, with the byte behind it in the place of the missing one. */
  function LogRead(a: bv8, stray: nat): (log: nat)
    requires a != 0 && stray < 256
    ensures log < 256
  {
    if a == 255 then stray else LogOf(a)
  }

  lemma ReadLogAlways(a: bv8, stray: nat)
    requires a != 0 && stray < 256
    ensures ReadLog(a as nat, stray) == LogRead(a, stray)
  {
    hide LogOf, GfLog;
    TopByte(a);
    if a != 255 {
      ReadLogIsLog(a, stray);
    }
  }

  /** `mult_gf` for all operands and every byte behind the table: two to the sum of what is read, less 256 if the char
      overflows. */
  lemma TableProductAlways(a: bv8, b: bv8, stray: nat)
    requires stray < 256
    ensures a == 0 || b == 0 ==> TableProduct(a, b, stray) == 0
    ensures a != 0 && b != 0 ==>
              var sum := LogRead(a, stray) + LogRead(b, stray);
              TableProduct(a, b, stray) == Exp(if sum <= 255 then sum else sum - 256)
  {
    hide ReadLog, LogRead, GfIlog, Exp, LogOf;
    if a != 0 && b != 0 {
      ReadLogAlways(a, stray);
      ReadLogAlways(b, stray);
      var sum := LogRead(a, stray) + LogRead(b, stray);
      if sum == 255 {
        GfIlogIsExp(0);
        ExpEqual(0, 255);
      } else {
        GfIlogIsExp(if sum < 255 then sum else sum - 256);
      }
    }
  }

  lemma StrayBoth()
    ensures TableProduct(255, 255, 0) != TableProduct(255, 255, 1)
  {
    hide GfLog, GfIlog, Exp;
    GfIlogIsExp(0);
    GfIlogIsExp(2);
    ExpEqual(0, 2);
  }

  /** A stray byte makes the sum whatever one likes. */
  lemma StrayOne(a: bv8, b: bv8) returns (s: nat, t: nat)
    requires a != 0 && b != 0 && (a == 255) != (b == 255)
    ensures s < 256 && t < 256 && TableProduct(a, b, s) != TableProduct(a, b, t)
  {
    hide GfIlog, Exp, TableProduct, GfLog;
    TopByte(a);
    TopByte(b);
    var log := if a == 255 then ReadLog(b as nat, 0) else ReadLog(a as nat, 0);
    s, t := (256 - log) % 256, (257 - log) % 256;
    assert (s + log) % 256 == 0 && (t + log) % 256 == 1;
    ProductOfSum(a, b, s, ReadLog(a as nat, s), ReadLog(b as nat, s));
    ProductOfSum(a, b, t, ReadLog(a as nat, t), ReadLog(b as nat, t));
    GfIlogIsExp(0);
    GfIlogIsExp(1);
    ExpEqual(0, 1);
  }

  /** Outside the tables the result is not determined: two stray bytes give two products. */
  lemma StrayRead(a: bv8, b: bv8)
    ensures ReadsInTable(a, b) <==> forall s, t | 0 <= s < 256 && 0 <= t < 256 ::
            TableProduct(a, b, s) == TableProduct(a, b, t)
  {
    hide TableProduct;
    if ReadsInTable(a, b) {
      forall s, t | 0 <= s < 256 && 0 <= t < 256
        ensures TableProduct(a, b, s) == TableProduct(a, b, t)
      {
        InTable(a, b, s, t);
      }
    } else if a == 255 && b == 255 {
      StrayBoth();
    } else {
      var s, t := StrayOne(a, b);
    }
  }

  /** The product with a wide sum, reduced modulo 255, and a complete log table. */
  function WideProduct(a: bv8, b: bv8): (product: bv8) {
    if a == 0 || b == 0 then 0 else GfIlog((LogOf(a) + LogOf(b)) % 255)
  }

  /** It is the field product of every pair of bytes. */
  lemma WideSum(a: bv8, b: bv8)
    ensures WideProduct(a, b) == Mul(a, b)
  {
    hide Mul, Exp, LogOf, GfIlog;
    NoZeroDivisors(a, b);
    if a != 0 && b != 0 {
      var sum := LogOf(a) + LogOf(b);
      MulByLogs(a, b);
      GfIlogIsExp(sum % 255);
      ExpMod(sum);
    }
  }

  lemma TableProductOne(b: bv8, stray: nat)
    requires stray < 256 && b != 255
    ensures TableProduct(1, b, stray) == b
  {
    hide Mul, TableProduct;
    TableProductMeaning(1, b, stray);
    LogOne();
    MulOne(b);
  }

  lemma TableProductNonZero(a: bv8, b: bv8, stray: nat)
    requires stray < 256 && a != 0 && b != 0
    ensures TableProduct(a, b, stray) != 0
  {
    hide GfLog, GfIlog;
    var sum := (ReadLog(a as nat, stray) + ReadLog(b as nat, stray)) % 256;
    var k := if sum >= 255 then sum - 255 else sum;
    GfIlogIsExp(k);
    ExpNonZero(k);
  }

  // ----- Table generation -----

  /** One turn of the generating loop on a wide register: shift, and reduce by 0x11d when bit eight is set. */
  lemma WideDouble(b: bv32, x: bv8)
    requires b == x as bv32
    ensures (if (b << 1) & 0x100 != 0 then (b << 1) ^ 0x11d else b << 1) == Double(x) as bv32
  {}

  lemma WideByte(b: bv32, x: bv8)
    requires b == x as bv32
    ensures b < 256 && b as nat == x as nat && (b == 1 <==> x == 1)
  {}

  lemma ZeroByte(b: bv8)
    ensures b as nat == 0 <==> b == 0
  {}

  lemma NextByte(b: bv8)
    requires b != 255
    ensures (b + 1) as nat == b as nat + 1
  {}

  lemma {:induction false} ByteOfIndex(n: nat) returns (b: bv8)
    requires n < 256
    ensures b as nat == n && (b == 0 <==> n == 0)
  {
    if n == 0 {
      b := 0;
    } else {
      var before := ByteOfIndex(n - 1);
      TopByte(before);
      NextByte(before);
      b := before + 1;
    }
    ZeroByte(b);
  }

  /** Entry n of the log table is stored in the turn of the loop that reaches its byte, and in no other. */
  lemma StoredAt(log: Exponent, n: nat)
    requires 0 < n < 256
    ensures 0 < Exp(log) as nat < 256
    ensures n == Exp(log) as nat <==> ClosedLog(n) == log
  {
    hide ClosedLog, Exp;
    LogExp(log);
    var b := ByteOfIndex(n);
    ExpLog(b);
  }

  /** The tables after `log` turns of the generating loop. */
  predicate Filled(gflog2: seq<nat>, gfilog2: seq<bv32>, log: nat) {
    && |gflog2| == |gfilog2| == 256
    && (forall k :: 0 <= k < log && k < 255 ==> gfilog2[k] == Exp(k) as bv32)
    && (forall n :: 0 < n < 256 && ClosedLog(n) < log ==> gflog2[n] == ClosedLog(n))
  }

  lemma FillStep(gflog2: seq<nat>, gfilog2: seq<bv32>, log: Exponent, b: bv32)
    requires Filled(gflog2, gfilog2, log) && b == Exp(log) as bv32
    ensures 0 < b as nat < 256
    ensures Filled(gflog2[b as nat := log], gfilog2[log := b], log + 1)
  {
    hide Exp, ClosedLog;
    WideByte(b, Exp(log));
    StoredAt(log, 1);
    var after := gflog2[b as nat := log];
    forall n | 0 < n < 256 && ClosedLog(n) < log + 1
      ensures after[n] == ClosedLog(n)
    {
      StoredAt(log, n);
    }
  }

  lemma DoubleStep(b: bv32, log: nat)
    requires b == Exp(log) as bv32
    ensures (if (b << 1) & 0x100 != 0 then (b << 1) ^ 0x11d else b << 1) == Exp(log + 1) as bv32
  {
    hide Exp, Double;
    WideDouble(b, Exp(log));
    ExpStep(log);
  }

  /** What the generator leaves in its tables. */
  predicate Generated(gflog2: seq<nat>, gfilog2: seq<bv32>) {
    && |gflog2| == |gfilog2| == 256
    && (forall k :: 0 <= k < 255 ==> gfilog2[k] == Exp(k) as bv32)
    && (forall n :: 0 < n < 256 ==> gflog2[n] == ClosedLog(n))
  }

  /** `setup_tables`: the loop fills both tables; entry 0 of the logs and entry 255 of the antilogs stay as
      allocated. */
  method SetupTables() returns (gflog2: array<nat>, gfilog2: array<bv32>)
    ensures fresh(gflog2) && fresh(gfilog2)
    ensures Generated(gflog2[..], gfilog2[..])
  {
    hide Exp, ClosedLog;
    var x_to_w := 256;
    gflog2 := new nat[x_to_w];
    gfilog2 := new bv32[x_to_w];
    var b: bv32 := 1;
    var log := 0;
    ExpZero();
    while log < x_to_w - 1
      invariant 0 <= log <= 255
      invariant b == Exp(log) as bv32
      invariant Filled(gflog2[..], gfilog2[..], log)
    {
      FillStep(gflog2[..], gfilog2[..], log, b);
      DoubleStep(b, log);
      ghost var before := (gflog2[..], gfilog2[..]);
      gflog2[b as nat] := log;
      gfilog2[log] := b;
      assert gflog2[..] == before.0[b as nat := log] && gfilog2[..] == before.1[log := b];
      b := b << 1;
      if b & 0x100 != 0 {
        b := b ^ 0x11d;
      }
      log := log + 1;
    }
  }

  lemma ExpZero()
    ensures Exp(0) == 1
  {}

  lemma ExpStep(k: nat)
    ensures Exp(k + 1) == Double(Exp(k))
  {}

  /** The generated tables invert one another. */
  lemma GeneratedInverse(gflog2: seq<nat>, gfilog2: seq<bv32>)
    requires Generated(gflog2, gfilog2)
    ensures forall n :: 0 < n < 256 ==> gflog2[n] < 255 && gfilog2[gflog2[n]] as nat == n
    ensures forall k :: 0 <= k < 255 ==> 0 < gfilog2[k] as nat < 256 && gflog2[gfilog2[k] as nat] == k
  {
    hide Exp, ClosedLog;
    forall n | 0 < n < 256
      ensures gflog2[n] < 255 && gfilog2[gflog2[n]] as nat == n
    {
      var k := ClosedLog(n);
      StoredAt(k, n);
      WideByte(gfilog2[k], Exp(k));
    }
    forall k | 0 <= k < 255
      ensures 0 < gfilog2[k] as nat < 256 && gflog2[gfilog2[k] as nat] == k
    {
      StoredAt(k, 1);
      WideByte(gfilog2[k], Exp(k));
      StoredAt(k, Exp(k) as nat);
    }
  }

  /** The generated tables agree with every literal antilog, and with the literal logs that exist and matter. */
  lemma GeneratedIsLiteral(gflog2: seq<nat>, gfilog2: seq<bv32>)
    requires Generated(gflog2, gfilog2)
    ensures forall k :: 0 <= k < 255 ==> gfilog2[k] == GfIlog(k) as bv32
    ensures forall n :: 0 < n < 255 ==> gflog2[n] == GfLog(n)
    ensures gflog2[255] == 175
  {
    hide Exp, ClosedLog, GfLog, GfIlog;
    forall k | 0 <= k < 255
      ensures gfilog2[k] == GfIlog(k) as bv32
    {
      GfIlogIsExp(k);
    }
    forall n | 0 < n < 255
      ensures gflog2[n] == GfLog(n)
    {
      ClosedLogIsLiteral(n);
    }
    ClosedLogLast();
  }

  lemma ClosedLogIsLiteral(n: nat)
    requires n < 255
    ensures ClosedLog(n) == GfLog(n)
  {
    hide LogRow;
    RowSizes(n / 16);
  }

  lemma ClosedLogLast()
    ensures ClosedLog(255) == 175
  {
    RowSizes(15);
  }
}
