/** Whether the four check symbols of the multi-failure encoder recover four lost disks: exactly up to seven data
    disks. */
module FourErasures {
  import opened GF256
  import opened Tables
  import opened Logarithms
  import opened Syndrome
  import opened Erasure
  import opened MultiSymbols

  // ----- Products of literals, by their logarithms -----

  lemma ProductByLogs(k: Exponent, l: Exponent)
    ensures Mul(GfIlog(k), GfIlog(l)) == GfIlog((k + l) % 255)
  {
    hide Mul, Exp, GfIlog;
    GfIlogIsExp(k);
    GfIlogIsExp(l);
    GfIlogIsExp((k + l) % 255);
    ExpAdd(k, l);
    ExpMod(k + l);
  }

  lemma LowProductEntries()
    ensures GFILOG_0[1] == 2 && GFILOG_0[2] == 4 && GFILOG_0[3] == 8 && GFILOG_0[4] == 16
    ensures GFILOG_0[6] == 64 && GFILOG_0[7] == 128 && GFILOG_0[8] == 29 && GFILOG_0[9] == 58
    ensures GFILOG_0[10] == 116 && GFILOG_0[12] == 205 && GFILOG_0[14] == 19 && GFILOG_1[9] == 3
    ensures GFILOG_1[10] == 6 && GFILOG_1[11] == 12 && GFILOG_1[12] == 24 && GFILOG_1[13] == 48
    ensures GFILOG_1[14] == 96 && GFILOG_2[1] == 39 && GFILOG_2[4] == 37 && GFILOG_2[11] == 119
    ensures GFILOG_3[2] == 5 && GFILOG_3[4] == 20 && GFILOG_3[5] == 40 && GFILOG_3[6] == 80
    ensures GFILOG_3[8] == 93 && GFILOG_4[3] == 194 && GFILOG_4[7] == 188 && GFILOG_4[11] == 15
    ensures GFILOG_5[11] == 163 && GFILOG_6[3] == 134
  {}

  lemma LowProductValues()
    ensures GfIlog(1) == 2 && GfIlog(2) == 4 && GfIlog(3) == 8 && GfIlog(4) == 16 && GfIlog(6) == 64
    ensures GfIlog(7) == 128 && GfIlog(8) == 29 && GfIlog(9) == 58 && GfIlog(10) == 116 && GfIlog(12) == 205
    ensures GfIlog(14) == 19 && GfIlog(25) == 3 && GfIlog(26) == 6 && GfIlog(27) == 12 && GfIlog(28) == 24
    ensures GfIlog(29) == 48 && GfIlog(30) == 96 && GfIlog(33) == 39 && GfIlog(36) == 37 && GfIlog(43) == 119
    ensures GfIlog(50) == 5 && GfIlog(52) == 20 && GfIlog(53) == 40 && GfIlog(54) == 80 && GfIlog(56) == 93
    ensures GfIlog(67) == 194 && GfIlog(71) == 188 && GfIlog(75) == 15 && GfIlog(91) == 163 && GfIlog(99) == 134
  {
    hide GfIlog, AntilogRow;
    AntilogRows();
    LowProductEntries();
    AntilogEntry(0, 1);
    AntilogEntry(0, 2);
    AntilogEntry(0, 3);
    AntilogEntry(0, 4);
    AntilogEntry(0, 6);
    AntilogEntry(0, 7);
    AntilogEntry(0, 8);
    AntilogEntry(0, 9);
    AntilogEntry(0, 10);
    AntilogEntry(0, 12);
    AntilogEntry(0, 14);
    AntilogEntry(1, 9);
    AntilogEntry(1, 10);
    AntilogEntry(1, 11);
    AntilogEntry(1, 12);
    AntilogEntry(1, 13);
    AntilogEntry(1, 14);
    AntilogEntry(2, 1);
    AntilogEntry(2, 4);
    AntilogEntry(2, 11);
    AntilogEntry(3, 2);
    AntilogEntry(3, 4);
    AntilogEntry(3, 5);
    AntilogEntry(3, 6);
    AntilogEntry(3, 8);
    AntilogEntry(4, 3);
    AntilogEntry(4, 7);
    AntilogEntry(4, 11);
    AntilogEntry(5, 11);
    AntilogEntry(6, 3);
  }

  lemma HighProductEntries()
    ensures GFILOG_6[4] == 17 && GFILOG_6[5] == 34 && GFILOG_6[7] == 136 && GFILOG_6[9] == 26
    ensures GFILOG_8[2] == 46 && GFILOG_8[10] == 33 && GFILOG_8[11] == 66 && GFILOG_8[12] == 132
    ensures GFILOG_8[13] == 21 && GFILOG_8[15] == 84 && GFILOG_9[0] == 168 && GFILOG_9[6] == 85
    ensures GFILOG_9[13] == 213 && GFILOG_9[15] == 115 && GFILOG_10[4] == 198 && GFILOG_10[15] == 255
    ensures GFILOG_11[3] == 75 && GFILOG_11[4] == 150 && GFILOG_11[15] == 65 && GFILOG_12[2] == 50
    ensures GFILOG_12[7] == 14 && GFILOG_12[12] == 221 && GFILOG_12[14] == 83 && GFILOG_12[15] == 166
    ensures GFILOG_13[15] == 9 && GFILOG_14[0] == 18 && GFILOG_14[1] == 36 && GFILOG_14[2] == 72
    ensures GFILOG_14[7] == 245 && GFILOG_14[10] == 251 && GFILOG_14[11] == 235
  {}

  lemma HighProductValues()
    ensures GfIlog(100) == 17 && GfIlog(101) == 34 && GfIlog(103) == 136 && GfIlog(105) == 26 && GfIlog(130) == 46
    ensures GfIlog(138) == 33 && GfIlog(139) == 66 && GfIlog(140) == 132 && GfIlog(141) == 21 && GfIlog(143) == 84
    ensures GfIlog(144) == 168 && GfIlog(150) == 85 && GfIlog(157) == 213 && GfIlog(159) == 115 && GfIlog(164) == 198
    ensures GfIlog(175) == 255 && GfIlog(179) == 75 && GfIlog(180) == 150 && GfIlog(191) == 65 && GfIlog(194) == 50
    ensures GfIlog(199) == 14 && GfIlog(204) == 221 && GfIlog(206) == 83 && GfIlog(207) == 166 && GfIlog(223) == 9
    ensures GfIlog(224) == 18 && GfIlog(225) == 36 && GfIlog(226) == 72 && GfIlog(231) == 245 && GfIlog(234) == 251
    ensures GfIlog(235) == 235
  {
    hide GfIlog, AntilogRow;
    AntilogRows();
    HighProductEntries();
    AntilogEntry(6, 4);
    AntilogEntry(6, 5);
    AntilogEntry(6, 7);
    AntilogEntry(6, 9);
    AntilogEntry(8, 2);
    AntilogEntry(8, 10);
    AntilogEntry(8, 11);
    AntilogEntry(8, 12);
    AntilogEntry(8, 13);
    AntilogEntry(8, 15);
    AntilogEntry(9, 0);
    AntilogEntry(9, 6);
    AntilogEntry(9, 13);
    AntilogEntry(9, 15);
    AntilogEntry(10, 4);
    AntilogEntry(10, 15);
    AntilogEntry(11, 3);
    AntilogEntry(11, 4);
    AntilogEntry(11, 15);
    AntilogEntry(12, 2);
    AntilogEntry(12, 7);
    AntilogEntry(12, 12);
    AntilogEntry(12, 14);
    AntilogEntry(12, 15);
    AntilogEntry(13, 15);
    AntilogEntry(14, 0);
    AntilogEntry(14, 1);
    AntilogEntry(14, 2);
    AntilogEntry(14, 7);
    AntilogEntry(14, 10);
    AntilogEntry(14, 11);
  }

  // ----- Four check symbols do not recover four disks -----

  /** Bytes on disks 0, 1, 3 and 7 that all four rows sum to zero.  The matrix entries there are 2^k and 3^k for
      k = 1, 2, 4, 8, where 3^k = 2^k + 1: row three is the sum of rows one and two. */
  function Invisible(n: nat): (s: seq<bv8>)
    requires n >= 8
    ensures |s| == n
  {
    Zeros(n)[0 := 35][1 := 66][3 := 96][7 := 1]
  }

  lemma FourTerms(r: bv8, n: nat)
    requires n >= 8
    ensures PowerSum(r, Invisible(n))
         == Add(Add(Add(Mul(Pow(r, 0), 35), Mul(Pow(r, 1), 66)), Mul(Pow(r, 3), 96)), Mul(Pow(r, 7), 1))
  {
    hide Add, Mul, Pow, PowerSum;
    var c := Invisible(n);
    Peel(r, c, 7);
    assert c[7 := 0] == Zeros(n)[0 := 35][1 := 66][3 := 96];
    ThreeTerms(r, c[7 := 0], 0, 1, 3);
  }

  lemma PowNext(r: bv8, k: nat)
    ensures Pow(r, k + 1) == Mul(r, Pow(r, k))
  {}

  lemma LiteralProducts()
    ensures Mul(4, 4) == 16 && Mul(4, 16) == 64 && Mul(4, 64) == 29 && Mul(4, 29) == 116
    ensures Mul(4, 116) == 205 && Mul(4, 205) == 19
  {
    hide Mul, GfIlog;
    LowProductValues();
    HighProductValues();
    ProductByLogs(2, 2);
    ProductByLogs(2, 4);
    ProductByLogs(2, 6);
    ProductByLogs(2, 8);
    ProductByLogs(2, 10);
    ProductByLogs(2, 12);
  }

  lemma LastProducts()
    ensures Mul(2, 64) == 128 && Mul(3, 85) == 255
  {
    hide Mul, GfIlog;
    LowProductValues();
    HighProductValues();
    ProductByLogs(1, 6);
    ProductByLogs(25, 150);
  }

  lemma LiteralPowers()
    ensures Pow(1, 1) == 1 && Pow(1, 3) == 1 && Pow(1, 7) == 1
    ensures Pow(4, 1) == 4 && Pow(4, 3) == 64 && Pow(4, 7) == 19
  {
    hide Mul, Pow;
    PowOne(1);
    PowOne(3);
    PowOne(7);
    PowZero(4);
    MulOne(4);
    LiteralProducts();
    PowNext(4, 0);
    PowNext(4, 1);
    PowNext(4, 2);
    PowNext(4, 3);
    PowNext(4, 4);
    PowNext(4, 5);
    PowNext(4, 6);
  }

  lemma LiteralPowersTwoThree()
    ensures Pow(2, 1) == 2 && Pow(2, 3) == 8 && Pow(2, 7) == 128
    ensures Pow(3, 1) == 3 && Pow(3, 3) == 15 && Pow(3, 7) == 255
  {
    hide Mul, Pow;
    SmallPowers();
    LastProducts();
    PowNext(2, 6);
    PowNext(3, 6);
  }

  lemma RowSum2()
    ensures Mul(2, 66) == 132 && Mul(8, 96) == 39
    ensures Add(Add(Add(35, 132), 39), 128) == 0
  {
    hide Mul, GfIlog;
    LowProductValues();
    HighProductValues();
    ProductByLogs(1, 139);
    ProductByLogs(3, 30);
  }

  lemma RowSum3()
    ensures Mul(3, 66) == 198 && Mul(15, 96) == 26
    ensures Add(Add(Add(35, 198), 26), 255) == 0
  {
    hide Mul, GfIlog;
    LowProductValues();
    HighProductValues();
    ProductByLogs(25, 139);
    ProductByLogs(75, 30);
  }

  lemma RowSum4()
    ensures Mul(4, 66) == 21 && Mul(64, 96) == 37
    ensures Add(Add(Add(35, 21), 37), 19) == 0
  {
    hide Mul, GfIlog;
    LowProductValues();
    HighProductValues();
    ProductByLogs(2, 139);
    ProductByLogs(6, 30);
  }

  lemma InvisibleSum(r: bv8, n: nat)
    requires IsRow(r) && n >= 8
    ensures PowerSum(r, Invisible(n)) == 0
  {
    hide Add, Mul, Pow, PowerSum;
    FourTerms(r, n);
    LiteralPowers();
    LiteralPowersTwoThree();
    PowZero(r);
    MulOne(35);
    MulOne(66);
    MulOne(96);
    MulOne(Pow(r, 7));
    RowSum1();
    RowSum2();
    RowSum3();
    RowSum4();
  }

  lemma RowSum1()
    ensures Add(Add(Add(35, 66), 96), 1) == 0
  {}

  /** From eight data disks on, two columns that differ on four disks can share all four check symbols. */
  lemma FourDataLostFails(n: nat)
    requires n >= 8
    ensures AgreeOutside(Zeros(n), Invisible(n), {0, 1, 3, 7}) && Zeros(n) != Invisible(n)
    ensures No255(Invisible(n))
    ensures SameSymbols(Zeros(n), Invisible(n))
  {
    hide Mul, PowerSum, FieldSymbol;
    assert Invisible(n)[0] == 35;
    forall r | IsRow(r)
      ensures FieldSymbol(r, Zeros(n)) == FieldSymbol(r, Invisible(n))
    {
      FieldSymbolIsRow(r, Zeros(n));
      FieldSymbolIsRow(r, Invisible(n));
      ZeroColumn(r, Zeros(n));
      InvisibleSum(r, n);
    }
  }

  // ----- Up to seven data disks they do -----

  /** (3^i + 1) / (2^i + 1) */
  function Slope(i: nat): (slope: bv8) {
    match i
    case 1 => 245
    case 2 => 166
    case 3 => 245
    case 4 => 115
    case 5 => 93
    case _ => 166
  }

  /** (Slope(b) + Slope(c)) / (2^b + 2^c) */
  function Curvature(b: nat, c: nat): (curvature: bv8) {
    match b
    case 1 => if c == 2 then 150 else if c == 3 then 0 else if c == 4 then 46 else if c == 5 then 119 else 194
    case 2 => if c == 3 then 75 else if c == 4 then 26 else if c == 5 then 58 else 0
    case 3 => if c == 4 then 188 else if c == 5 then 163 else 235
    case 4 => if c == 5 then 34 else 136
    case _ => 221
  }

  lemma SmallPowers()
    ensures Pow(2, 1) == 2 && Pow(2, 2) == 4 && Pow(2, 3) == 8 && Pow(2, 4) == 16 && Pow(2, 5) == 32 && Pow(2, 6) == 64
    ensures Pow(3, 1) == 3 && Pow(3, 2) == 5 && Pow(3, 3) == 15 && Pow(3, 4) == 17 && Pow(3, 5) == 51 && Pow(3, 6) == 85
  {}

  lemma SlopeProducts()
    ensures Mul(245, 3) == 2 && Mul(166, 5) == 4 && Mul(245, 9) == 14
    ensures Mul(115, 17) == 16 && Mul(93, 33) == 50 && Mul(166, 65) == 84
  {
    hide Mul, GfIlog;
    LowProductValues();
    HighProductValues();
    ProductByLogs(231, 25);
    ProductByLogs(207, 50);
    ProductByLogs(231, 223);
    ProductByLogs(159, 100);
    ProductByLogs(56, 138);
    ProductByLogs(207, 191);
  }

  lemma CurvatureProducts()
    ensures Mul(150, 6) == 83 && Mul(0, 10) == 0 && Mul(46, 18) == 134
    ensures Mul(119, 34) == 168 && Mul(194, 66) == 83
    ensures Mul(75, 12) == 83 && Mul(26, 20) == 213 && Mul(58, 36) == 251 && Mul(0, 68) == 0
    ensures Mul(188, 24) == 134 && Mul(163, 40) == 168 && Mul(235, 72) == 83
    ensures Mul(34, 48) == 46 && Mul(136, 80) == 213
    ensures Mul(221, 96) == 251
  {
    hide Mul, GfIlog;
    LowProductValues();
    HighProductValues();
    MulZero(10);
    ProductByLogs(180, 26);
    ProductByLogs(130, 224);
    ProductByLogs(43, 101);
    ProductByLogs(67, 139);
    MulZero(68);
    ProductByLogs(179, 27);
    ProductByLogs(105, 52);
    ProductByLogs(9, 225);
    ProductByLogs(71, 28);
    ProductByLogs(91, 53);
    ProductByLogs(235, 226);
    ProductByLogs(101, 29);
    ProductByLogs(103, 54);
    ProductByLogs(204, 30);
  }

  lemma SlopeLaw(i: nat)
    requires 1 <= i <= 6
    ensures Mul(Slope(i), Add(Pow(2, i), 1)) == Add(Pow(3, i), 1)
  {
    hide Mul, Pow;
    SmallPowers();
    SlopeProducts();
  }

  lemma CurvatureLaw(b: nat, c: nat)
    requires 1 <= b < c <= 6
    ensures Mul(Curvature(b, c), Add(Pow(2, b), Pow(2, c))) == Add(Slope(b), Slope(c))
  {
    hide Mul, Pow;
    SmallPowers();
    CurvatureProducts();
  }

  lemma CurvaturesDiffer(b: nat, c: nat, d: nat)
    requires 1 <= b < c < d <= 6
    ensures Curvature(b, c) != Curvature(b, d)
  {}

  lemma Regroup(z: bv8, e: bv8, f: bv8, g: bv8, p: bv8, q: bv8, r: bv8)
    requires Add(Add(Add(z, e), f), g) == 0 && Add(Add(Add(z, p), q), r) == 0
    ensures Add(Add(Add(p, e), Add(q, f)), Add(r, g)) == 0
  {}

  /** Subtracting the first equation of a system from another. */
  lemma Subtract(z: bv8, e: bv8, f: bv8, g: bv8, u: bv8, v: bv8, w: bv8)
    requires Add(Add(Add(z, e), f), g) == 0
    requires Add(Add(Add(z, Mul(u, e)), Mul(v, f)), Mul(w, g)) == 0
    ensures Add(Add(Mul(Add(u, 1), e), Mul(Add(v, 1), f)), Mul(Add(w, 1), g)) == 0
  {
    hide Mul, Add;
    Regroup(z, e, f, g, Mul(u, e), Mul(v, f), Mul(w, g));
    AddOneTimes(u, e);
    AddOneTimes(v, f);
    AddOneTimes(w, g);
  }

  lemma AddOneTimes(u: bv8, e: bv8)
    ensures Mul(Add(u, 1), e) == Add(Mul(u, e), e)
  {
    hide Mul, Add;
    MulAddLeft(u, 1, e);
    MulOne(e);
  }

  lemma SquareAddOne(u: bv8)
    ensures Add(Mul(u, u), 1) == Mul(Add(u, 1), Add(u, 1))
  {
    hide Mul, Add;
    AddOneTimes(u, Add(u, 1));
    MulAddRight(u, u, 1);
    MulOne(u);
    AddAssoc(Mul(u, u), u, Add(u, 1));
    AddCancel(1, u);
    AddLaws(u, 1);
  }

  /** The system of the four rows for four lost disks, 0 < b < c < d, brought down to two equations. */
  lemma FourEquations(b: nat, c: nat, d: nat, z: bv8, e: bv8, f: bv8, g: bv8)
    requires 1 <= b < c < d <= 6
    requires Add(Add(Add(z, f), g), e) == 0
    requires forall r :: r == 2 || r == 3 || r == 4 ==>
               Add(Add(Add(z, Mul(Pow(r, c), f)), Mul(Pow(r, d), g)), Mul(Pow(r, b), e)) == 0
    ensures z == 0 && e == 0 && f == 0 && g == 0
  {
    hide Mul, Add, Pow;
    var u, v, w := Add(Pow(2, b), 1), Add(Pow(2, c), 1), Add(Pow(2, d), 1);
    var ue, vf, wg := Mul(u, e), Mul(v, f), Mul(w, g);
    Subtract(z, f, g, e, Pow(2, c), Pow(2, d), Pow(2, b));
    Subtract(z, f, g, e, Pow(3, c), Pow(3, d), Pow(3, b));
    Subtract(z, f, g, e, Pow(4, c), Pow(4, d), Pow(4, b));
    Scaled(b, e);
    Scaled(c, f);
    Scaled(d, g);
    Eliminate(v, w, u, vf, wg, ue);
    Eliminate(Slope(c), Slope(d), Slope(b), vf, wg, ue);
    SumsOfShifted(b, c);
    SumsOfShifted(b, d);
    TwoCurves(b, c, d, vf, wg);
    AddLaws(0, ue);
    AddLaws(0, 0);
    NonZeroShift(b);
    NonZeroShift(c);
    NonZeroShift(d);
    NoZeroDivisors(u, e);
    NoZeroDivisors(v, f);
    NoZeroDivisors(w, g);
    AddLaws(z, 0);
  }

  /** The unknown of disk i, scaled by 2^i + 1, has coefficients 1, 2^i + 1 and Slope(i). */
  lemma Scaled(i: nat, e: bv8)
    requires 1 <= i <= 6
    ensures var u := Add(Pow(2, i), 1);
            && Mul(Add(Pow(4, i), 1), e) == Mul(u, Mul(u, e))
            && Mul(Add(Pow(3, i), 1), e) == Mul(Slope(i), Mul(u, e))
  {
    hide Mul, Add, Pow;
    var u := Add(Pow(2, i), 1);
    PowFour(i);
    SquareAddOne(Pow(2, i));
    MulAssoc(u, u, e);
    SlopeLaw(i);
    MulAssoc(Slope(i), u, e);
  }

  lemma NonZeroShift(i: nat)
    requires 1 <= i <= 6
    ensures Add(Pow(2, i), 1) != 0
  {
    hide Add, Pow;
    DistinctPowers(i, 0);
    PowZero(2);
    AddLaws(Pow(2, i), 1);
  }

  /** The ones cancel. */
  lemma SumsOfShifted(b: nat, c: nat)
    ensures Add(Add(Pow(2, c), 1), Add(Pow(2, b), 1)) == Add(Pow(2, b), Pow(2, c))
  {
    hide Add, Pow;
    AddSwap(Pow(2, c), 1, Pow(2, b), 1);
    AddLaws(1, 1);
    AddLaws(Pow(2, c), Pow(2, b));
    AddLaws(Add(Pow(2, c), Pow(2, b)), 0);
  }

  lemma TwoCurves(b: nat, c: nat, d: nat, f: bv8, g: bv8)
    requires 1 <= b < c < d <= 6
    requires Mul(Add(Pow(2, b), Pow(2, c)), f) == Mul(Add(Pow(2, b), Pow(2, d)), g)
    requires Mul(Add(Slope(c), Slope(b)), f) == Mul(Add(Slope(d), Slope(b)), g)
    ensures f == 0 && g == 0
  {
    hide Mul, Add, Pow, Slope, Curvature;
    var s, t, k, l := Add(Pow(2, b), Pow(2, c)), Add(Pow(2, b), Pow(2, d)), Curvature(b, c), Curvature(b, d);
    CurvatureLaw(b, c);
    CurvatureLaw(b, d);
    AddLaws(Slope(c), Slope(b));
    AddLaws(Slope(d), Slope(b));
    MulAssoc(k, s, f);
    MulAssoc(l, t, g);
    var h := Mul(s, f);
    assert Mul(k, h) == Mul(l, h);
    MulAddLeft(k, l, h);
    AddLaws(Mul(k, h), Mul(l, h));
    CurvaturesDiffer(b, c, d);
    AddLaws(k, l);
    NoZeroDivisors(Add(k, l), h);
    DistinctPowers(b, c);
    DistinctPowers(b, d);
    AddLaws(Pow(2, b), Pow(2, c));
    AddLaws(Pow(2, b), Pow(2, d));
    NoZeroDivisors(s, f);
    NoZeroDivisors(t, g);
  }

  /** All four rows of the column sum to zero. */
  predicate Silent(c: seq<bv8>) {
    PowerSum(1, c) == 0 && PowerSum(2, c) == 0 && PowerSum(3, c) == 0 && PowerSum(4, c) == 0
  }

  lemma FourSums(r: bv8, s: seq<bv8>, b: nat, c: nat, d: nat)
    requires 0 < b < c < d < |s| && forall z :: 0 <= z < |s| && z !in {0, b, c, d} ==> s[z] == 0
    ensures PowerSum(r, s) == Add(Add(Add(s[0], Mul(Pow(r, c), s[c])), Mul(Pow(r, d), s[d])), Mul(Pow(r, b), s[b]))
  {
    hide Mul, Add, Pow, PowerSum;
    Peel(r, s, b);
    ThreeTerms(r, s[b := 0], 0, c, d);
    PowZero(r);
    MulOne(s[0]);
  }

  /** A silent column of at most seven bytes with four non-zero ones at most is zero. */
  lemma {:induction false} SilentIsZero(s: seq<bv8>, a: nat, b: nat, c: nat, d: nat)
    requires a < b < c < d < |s| <= 7 && Silent(s)
    requires forall z :: 0 <= z < |s| && z !in {a, b, c, d} ==> s[z] == 0
    ensures forall z :: 0 <= z < |s| ==> s[z] == 0
    decreases a
  {
    hide Mul, Add, Pow, PowerSum;
    if a == 0 {
      forall r | IsRow(r)
        ensures Add(Add(Add(s[0], Mul(Pow(r, c), s[c])), Mul(Pow(r, d), s[d])), Mul(Pow(r, b), s[b])) == 0
      {
        FourSums(r, s, b, c, d);
      }
      UnitTerm(b, s[b]);
      UnitTerm(c, s[c]);
      UnitTerm(d, s[d]);
      assert IsRow(1) && IsRow(2) && IsRow(3) && IsRow(4);
      FourEquations(b, c, d, s[0], s[b], s[c], s[d]);
    } else {
      StripZero(1, s);
      StripZero(2, s);
      StripZero(3, s);
      StripZero(4, s);
      SilentIsZero(s[1..], a - 1, b - 1, c - 1, d - 1);
      forall z | 0 < z < |s|
        ensures s[z] == 0
      {
        assert s[z] == s[1..][z - 1];
      }
    }
  }

  lemma StripZero(r: bv8, s: seq<bv8>)
    requires r != 0 && |s| > 0 && s[0] == 0 && PowerSum(r, s) == 0
    ensures PowerSum(r, s[1..]) == 0
  {
    hide Mul, Add, PowerSum;
    PowerSumFront(r, s);
    AddLaws(Mul(r, PowerSum(r, s[1..])), 0);
    NoZeroDivisors(r, PowerSum(r, s[1..]));
  }

  ghost predicate SameSymbols(a: seq<bv8>, b: seq<bv8>) {
    forall r :: IsRow(r) ==> FieldSymbol(r, a) == FieldSymbol(r, b)
  }

  lemma SameIsSilent(a: seq<bv8>, b: seq<bv8>)
    requires |a| == |b| && SameSymbols(a, b)
    ensures Silent(AddColumns(a, b))
  {
    hide Mul, Add, PowerSum, FieldSymbol, RowSymbol;
    forall r | IsRow(r)
      ensures PowerSum(r, AddColumns(a, b)) == 0
    {
      FieldSymbolIsRow(r, a);
      FieldSymbolIsRow(r, b);
      RowEqual(r, a, b);
    }
    assert IsRow(1) && IsRow(2) && IsRow(3) && IsRow(4);
  }

  /** Four symbols determine four lost disks, in any order and not necessarily distinct, of up to seven. */
  lemma FourDataLost(a: seq<bv8>, b: seq<bv8>, x: nat, y: nat, w: nat, v: nat)
    requires |a| <= 7 && x < |a| && y < |a| && w < |a| && v < |a| && AgreeOutside(a, b, {x, y, w, v}) &&
             SameSymbols(a, b)
    ensures a == b
    decreases 4 * x + 3 * y + 2 * w + v
  {
    hide FieldSymbol, RowSymbol, AddColumns, PowerSum, SameSymbols;
    if x > y {
      FourDataLost(a, b, y, x, w, v);
    } else if y > w {
      FourDataLost(a, b, x, w, y, v);
    } else if w > v {
      FourDataLost(a, b, x, y, v, w);
    } else if x == y || y == w || w == v {
      ThreeSymbols(a, b);
      ThreeDataLost(a, b, x, if x == y then w else y, v);
    } else {
      SameIsSilent(a, b);
      DifferenceOutside(a, b, {x, y, w, v});
      SilentIsZero(AddColumns(a, b), x, y, w, v);
      forall z | 0 <= z < |a|
        ensures a[z] == b[z]
      {
        DifferenceEntry(a, b, z);
      }
    }
  }

  lemma ThreeSymbols(a: seq<bv8>, b: seq<bv8>)
    requires SameSymbols(a, b)
    ensures RowSymbol(1, a) == RowSymbol(1, b) && RowSymbol(2, a) == RowSymbol(2, b) &&
            RowSymbol(4, a) == RowSymbol(4, b)
  {
    hide FieldSymbol, RowSymbol;
    forall r | IsRow(r)
      ensures RowSymbol(r, a) == RowSymbol(r, b)
    {
      FieldSymbolIsRow(r, a);
      FieldSymbolIsRow(r, b);
    }
    assert IsRow(1) && IsRow(2) && IsRow(4);
  }

  ghost predicate CorrectsFour(n: nat) {
    forall a, b, x: nat, y: nat, w: nat, v: nat
      | |a| == n && x < n && y < n && w < n && v < n && AgreeOutside(a, b, {x, y, w, v}) && SameSymbols(a, b) :: a == b
  }

  /** The four check symbols recover four lost data disks exactly when there are at most seven. */
  lemma CorrectsFourExactly(n: nat)
    ensures CorrectsFour(n) <==> n <= 7
  {
    hide SameSymbols;
    if n <= 7 {
      forall a, b, x: nat, y: nat, w: nat, v: nat
        | |a| == n && x < n && y < n && w < n && v < n && AgreeOutside(a, b, {x, y, w, v}) && SameSymbols(a, b)
        ensures a == b
      {
        FourDataLost(a, b, x, y, w, v);
      }
    } else {
      FourDataLostFails(n);
    }
  }
}
