/** Discrete logarithms to the base two.  The literal log table follows doubling, so it inverts the
    powers of two; hence two has order exactly 255, there are no zero divisors, and every non-zero byte
    has an inverse. */
module Logarithms {
  import opened GF256
  import opened Tables

  /** gflog[b], with the entry for 255 that the literal table lacks. */
  function LogOf(b: bv8): (log: Exponent)
    requires b != 0
  {
    ClosedLog(b as nat)
  }

  function ClosedLog(n: nat): (log: Exponent)
    requires n < 256
  {
    ClosedRowSize(n / 16);
    ClosedLogRow(n / 16)[n % 16]
  }

  lemma ClosedRowSize(r: nat)
    requires r < 16
    ensures |ClosedLogRow(r)| == 16
  {
    RowSizes(r);
  }

  /** The literal table is this logarithm, wherever it has an entry. */
  lemma GfLogIsLog(b: bv8)
    requires b != 0 && b != 255
    ensures GfLog(b as nat) == LogOf(b)
  {
    hide LogRow;
    RowSizes(b as nat / 16);
  }

  // ----- Where doubling moves a byte within the rows of sixteen -----

  lemma Nibbles(b: bv8)
    ensures (b >> 4) as nat == b as nat / 16
    ensures (b & 15) as nat == b as nat % 16
  {}

  lemma DoubleSmallIndex(b: bv8)
    requires b < 128
    ensures Double(b) as nat == 2 * (b as nat)
  {}

  lemma FlipLow(x: bv8)
    requires x < 16
    ensures (x ^ 1) as nat == if x as nat % 2 == 0 then x as nat + 1 else x as nat - 1
  {}

  lemma FlipThirteen(x: bv8)
    requires x < 16 && x & 1 == 0
    ensures (x ^ 13) as nat == if x & 2 == 0 then 13 - x as nat else 17 - x as nat
  {}

  lemma DoubleLargeNibbles(b: bv8)
    requires b >= 128
    ensures Double(b) >> 4 == ((b >> 3) & 15) ^ 1
    ensures Double(b) & 15 == ((b & 7) << 1) ^ 13
  {}

  lemma RowOfDouble(b: bv8)
    requires b >= 128
    ensures ((b >> 3) & 15) as nat == 2 * (b as nat / 16) - 16 + (if b as nat % 16 < 8 then 0 else 1)
  {}

  lemma LowBits(b: bv8)
    ensures (b & 7) as nat == b as nat % 8
    ensures b & 1 == 0 <==> b as nat % 2 == 0
  {}

  lemma DoubleLowBits(x: bv8)
    requires x < 8
    ensures (x << 1) as nat == 2 * (x as nat) && x << 1 < 16
  {}

  lemma ColumnBits(b: bv8)
    ensures b & 7 < 8
    ensures ((b & 7) << 1) & 1 == 0
    ensures ((b & 7) << 1) & 2 == 0 <==> b & 1 == 0
  {}

  lemma ColumnOfDouble(b: bv8, x: bv8)
    requires x == (b & 7) << 1
    ensures x as nat == 2 * (b as nat % 8)
    ensures x & 1 == 0 && x < 16
    ensures x & 2 == 0 <==> b as nat % 2 == 0
  {
    LowBits(b);
    ColumnBits(b);
    DoubleLowBits(b & 7);
  }

  lemma DoubleLargeIndex(b: bv8)
    requires b >= 128
    ensures var r, c := b as nat / 16, b as nat % 16;
            && Double(b) as nat / 16 == (if c < 8 then 2 * r - 15 else 2 * r - 16)
            && Double(b) as nat % 16 == Flip13(if c < 8 then 2 * c else 2 * c - 16)
  {
    hide Double;
    var x, y := (b & 7) << 1, (b >> 3) & 15;
    ColumnOfDouble(b, x);
    RowOfDouble(b);
    FlipThirteen(x);
    FlipLow(y);
    DoubleLargeNibbles(b);
    Nibbles(Double(b));
  }

  // ----- The logarithm is the inverse of the powers -----

  lemma LogDoubleSmall(b: bv8, n: nat, m: nat)
    requires n == b as nat && m == Double(b) as nat
    requires 0 < n < 128 && m == 2 * n
    ensures ClosedLog(m) == Next(ClosedLog(n))
  {
    hide Double, ClosedLogRow, Next, Shifted;
    var r, c := n / 16, n % 16;
    RowShifted(r);
    if c > 0 {
      ShiftedAt(ClosedLogRow(r), ClosedLogRow(2 * r), ClosedLogRow(2 * r + 1), c);
    }
    assert m / 16 == (if c < 8 then 2 * r else 2 * r + 1);
  }

  lemma LogDoubleLarge(n: nat, m: nat)
    requires 128 <= n < 256 && m < 256
    requires m / 16 == (if n % 16 < 8 then 2 * (n / 16) - 15 else 2 * (n / 16) - 16)
    requires m % 16 == Flip13(if n % 16 < 8 then 2 * (n % 16) else 2 * (n % 16) - 16)
    ensures ClosedLog(m) == Next(ClosedLog(n))
  {
    hide ClosedLogRow, Next, Reduced, Flip13;
    var r, c := n / 16, n % 16;
    RowReduced(r);
    ReducedAt(ClosedLogRow(r), ClosedLogRow(2 * r - 15), ClosedLogRow(2 * r - 16), c);
  }

  lemma LogDouble(b: bv8)
    requires b != 0
    ensures Double(b) != 0 && LogOf(Double(b)) == Next(LogOf(b))
  {
    hide Double, ClosedLog, Next, Flip13;
    DoubleZero(b);
    if b < 128 {
      DoubleSmallIndex(b);
      LogDoubleSmall(b, b as nat, Double(b) as nat);
    } else {
      DoubleLargeIndex(b);
      LogDoubleLarge(b as nat, Double(b) as nat);
    }
  }

  lemma LogOne()
    ensures LogOf(1) == 0
  {}

  lemma PositiveLog(n: nat)
    requires 2 <= n < 256
    ensures ClosedLog(n) > 0
  {
    hide LogRow;
    RowSizes(n / 16);
    assert n == 16 * (n / 16) + n % 16;
  }

  lemma SmallBytes(b: bv8)
    requires b != 0 && b != 1
    ensures b as nat >= 2
  {}

  lemma LogZeroOnlyOne(b: bv8)
    requires b != 0
    ensures LogOf(b) == 0 ==> b == 1
  {
    hide ClosedLog;
    if b != 1 {
      SmallBytes(b);
      PositiveLog(b as nat);
    }
  }

  lemma {:induction false} LogExp(k: Exponent)
    ensures Exp(k) != 0 && LogOf(Exp(k)) == k
  {
    hide Double, LogOf;
    ExpNonZero(k);
    if k == 0 {
      LogOne();
    } else {
      LogExp(k - 1);
      LogDouble(Exp(k - 1));
    }
  }

  lemma {:induction false} ExpLog(b: bv8)
    requires b != 0
    ensures Exp(LogOf(b)) == b
    decreases LogOf(b)
  {
    hide Double, Halve, LogOf;
    if LogOf(b) == 0 {
      LogZeroOnlyOne(b);
    } else {
      var h := Halve(b);
      DoubleHalve(b);
      DoubleZero(h);
      LogDouble(h);
      ExpLog(h);
    }
  }

  /** Every literal entry is the discrete logarithm of its index. */
  lemma LiteralLogarithm(b: bv8)
    requires b != 0 && b != 255
    ensures Exp(GfLog(b as nat)) == b
  {
    hide Exp, LogOf, GfLog;
    GfLogIsLog(b);
    ExpLog(b);
  }

  lemma {:induction false} ExpPeriod(k: nat)
    ensures Exp(k + 255) == Exp(k)
  {
    hide Double, Mul;
    ExpAdd(k, 255);
    ExpOrder();
    MulOne(Exp(k));
  }

  lemma {:induction false} ExpMod(k: nat)
    ensures Exp(k) == Exp(k % 255)
  {
    hide Double, Exp;
    if k >= 255 {
      ExpMod(k - 255);
      ExpPeriod(k - 255);
    }
  }

  /** Two has order exactly 255: powers agree just when the exponents do modulo 255. */
  lemma ExpEqual(j: nat, k: nat)
    ensures Exp(j) == Exp(k) <==> j % 255 == k % 255
  {
    hide Double, Exp;
    ExpMod(j);
    ExpMod(k);
    LogExp(j % 255);
    LogExp(k % 255);
  }

  // ----- No zero divisors, inverses -----

  lemma NoZeroDivisors(a: bv8, b: bv8)
    ensures Mul(a, b) == 0 <==> a == 0 || b == 0
  {
    hide Mul, Exp, Double;
    if a == 0 {
      MulZero(b);
    } else {
      ExpLog(a);
      ExpTimesZero(LogOf(a), b);
    }
  }

  lemma MulCancel(a: bv8, b: bv8, c: bv8)
    requires a != 0 && Mul(a, b) == Mul(a, c)
    ensures b == c
  {
    hide Mul, Add;
    MulAddRight(a, b, c);
    AddLaws(Mul(a, b), Mul(a, c));
    NoZeroDivisors(a, Add(b, c));
    AddLaws(b, c);
  }

  function Inverse(a: bv8): (inverse: bv8)
    requires a != 0
  {
    Exp(255 - LogOf(a))
  }

  lemma MulInverse(a: bv8)
    requires a != 0
    ensures Inverse(a) != 0
    ensures Mul(a, Inverse(a)) == 1
  {
    hide Mul, Exp, Double;
    ExpLog(a);
    ExpNonZero(255 - LogOf(a));
    ExpAdd(LogOf(a), 255 - LogOf(a));
    ExpOrder();
  }

  /** The product of two powers, as the tables compute it. */
  lemma MulByLogs(a: bv8, b: bv8)
    requires a != 0 && b != 0
    ensures Mul(a, b) == Exp(LogOf(a) + LogOf(b))
  {
    hide Mul, Exp, Double;
    ExpLog(a);
    ExpLog(b);
    ExpAdd(LogOf(a), LogOf(b));
  }
}
