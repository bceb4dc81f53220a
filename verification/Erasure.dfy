/** What the check bytes determine: recovery of lost disks from P and Q, and from rows 1, 2 and 4 of the
    multi-failure encoder. */
module Erasure {
  import opened GF256
  import opened Logarithms
  import opened Syndrome

  /** The two columns agree on every disk outside `lost`. */
  predicate AgreeOutside(a: seq<bv8>, b: seq<bv8>, lost: set<int>) {
    |a| == |b| && forall z :: 0 <= z < |a| && z !in lost ==> a[z] == b[z]
  }

  // ----- Sums over the lost disks -----

  lemma {:induction false} Peel(r: bv8, column: seq<bv8>, x: nat)
    requires x < |column|
    ensures PowerSum(r, column) == Add(PowerSum(r, column[x := 0]), Mul(Pow(r, x), column[x]))
    decreases |column|
  {
    hide Add, Mul, Pow;
    var z := |column| - 1;
    if x == z {
      assert column[x := 0][..z] == column[..z];
      MulZero(Pow(r, z));
      AddLaws(PowerSum(r, column[..z]), 0);
    } else {
      Peel(r, column[..z], x);
      assert column[x := 0][..z] == column[..z][x := 0];
      var s, t, u := PowerSum(r, column[..z][x := 0]), Mul(Pow(r, x), column[x]), Mul(Pow(r, z), column[z]);
      AddAssoc(s, t, u);
      AddAssoc(s, u, t);
      AddLaws(t, u);
    }
  }

  lemma {:induction false} ZeroColumn(r: bv8, column: seq<bv8>)
    requires forall z :: 0 <= z < |column| ==> column[z] == 0
    ensures PowerSum(r, column) == 0
  {
    hide Add, Mul, Pow;
    if |column| > 0 {
      ZeroColumn(r, column[..|column| - 1]);
      MulZero(Pow(r, |column| - 1));
      AddLaws(0, 0);
    }
  }

  lemma TwoTerms(r: bv8, c: seq<bv8>, x: nat, y: nat)
    requires x < |c| && y < |c| && x != y
    requires forall z :: 0 <= z < |c| && z !in {x, y} ==> c[z] == 0
    ensures PowerSum(r, c) == Add(Mul(Pow(r, x), c[x]), Mul(Pow(r, y), c[y]))
  {
    hide Add, Mul, Pow;
    var c1 := c[y := 0];
    Peel(r, c, y);
    Peel(r, c1, x);
    ZeroColumn(r, c1[x := 0]);
    AddLaws(Mul(Pow(r, x), c[x]), 0);
  }

  /** A column that is zero outside x, y and w. */
  lemma ThreeTerms(r: bv8, c: seq<bv8>, x: nat, y: nat, w: nat)
    requires x < |c| && y < |c| && w < |c| && x != y && y != w && x != w
    requires forall z :: 0 <= z < |c| && z !in {x, y, w} ==> c[z] == 0
    ensures PowerSum(r, c) == Add(Add(Mul(Pow(r, x), c[x]), Mul(Pow(r, y), c[y])), Mul(Pow(r, w), c[w]))
  {
    hide Add, Mul, Pow, PowerSum;
    Peel(r, c, w);
    TwoTerms(r, c[w := 0], x, y);
  }

  lemma OneTerm(r: bv8, c: seq<bv8>, x: nat)
    requires x < |c|
    requires forall z :: 0 <= z < |c| && z != x ==> c[z] == 0
    ensures PowerSum(r, c) == Mul(Pow(r, x), c[x])
  {
    hide Add, Mul, Pow;
    Peel(r, c, x);
    ZeroColumn(r, c[x := 0]);
    AddLaws(Mul(Pow(r, x), c[x]), 0);
  }

  // ----- The difference of two columns with the same check bytes -----

  lemma Difference(r: bv8, a: seq<bv8>, b: seq<bv8>)
    requires |a| == |b| && PowerSum(r, a) == PowerSum(r, b)
    ensures PowerSum(r, AddColumns(a, b)) == 0
  {
    hide Add, PowerSum;
    PowerSumLinear(r, a, b);
    AddLaws(PowerSum(r, a), PowerSum(r, b));
  }

  lemma DifferenceEntry(a: seq<bv8>, b: seq<bv8>, z: nat)
    requires |a| == |b| && z < |a|
    ensures AddColumns(a, b)[z] == 0 <==> a[z] == b[z]
  {
    hide Add;
    AddLaws(a[z], b[z]);
  }

  lemma DifferenceOutside(a: seq<bv8>, b: seq<bv8>, lost: set<int>)
    requires AgreeOutside(a, b, lost)
    ensures forall z :: 0 <= z < |a| && z !in lost ==> AddColumns(a, b)[z] == 0
  {
    forall z | 0 <= z < |a| && z !in lost
      ensures AddColumns(a, b)[z] == 0
    {
      DifferenceEntry(a, b, z);
    }
  }

  lemma DistinctPowers(x: nat, y: nat)
    requires x < 255 && y < 255 && x != y
    ensures Pow(2, x) != Pow(2, y)
  {
    hide Exp, Pow;
    ExpIsPow(x);
    ExpIsPow(y);
    ExpEqual(x, y);
  }

  lemma PowTwoNonZero(x: nat)
    ensures Pow(2, x) != 0
  {
    ExpIsPow(x);
    ExpNonZero(x);
  }

  // ----- P and Q: two lost disks -----

  /** u e + v f = 0 and e + f = 0 with u != v leave only e = f = 0. */
  lemma TwoEquations(u: bv8, v: bv8, e: bv8, f: bv8)
    requires u != v
    requires Add(Mul(1, e), Mul(1, f)) == 0 && Add(Mul(u, e), Mul(v, f)) == 0
    ensures e == 0 && f == 0
  {
    hide Add, Mul;
    MulOne(e);
    MulOne(f);
    AddLaws(e, f);
    MulAddLeft(u, v, e);
    NoZeroDivisors(Add(u, v), e);
    AddLaws(u, v);
  }

  /** One stripe is determined by P, Q and all data disks but two, for up to 255 data disks. */
  lemma TwoDataLost(a: seq<bv8>, b: seq<bv8>, x: nat, y: nat)
    requires |a| <= 255 && x < |a| && y < |a| && AgreeOutside(a, b, {x, y})
    requires PByte(a) == PByte(b) && QByte(a) == QByte(b)
    ensures a == b
  {
    hide Add, Mul, Pow, PowerSum, AddColumns;
    var c := AddColumns(a, b);
    DifferenceOutside(a, b, {x, y});
    ParityIsPowerSum(a);
    ParityIsPowerSum(b);
    if x == y {
      OneDataAndQLost(a, b, x);
    } else {
      Difference(1, a, b);
      Difference(2, a, b);
      TwoTerms(1, c, x, y);
      TwoTerms(2, c, x, y);
      PowOne(x);
      PowOne(y);
      DistinctPowers(x, y);
      TwoEquations(Pow(2, x), Pow(2, y), c[x], c[y]);
      DifferenceEntry(a, b, x);
      DifferenceEntry(a, b, y);
    }
  }

  /** Without Q, the parity determines one lost data disk, for any number of disks. */
  lemma OneDataAndQLost(a: seq<bv8>, b: seq<bv8>, x: nat)
    requires x < |a| && AgreeOutside(a, b, {x}) && PByte(a) == PByte(b)
    ensures a == b
  {
    hide Add, Mul, Pow, PowerSum, AddColumns;
    ParityIsPowerSum(a);
    ParityIsPowerSum(b);
    DifferenceOutside(a, b, {x});
    Difference(1, a, b);
    OneTerm(1, AddColumns(a, b), x);
    PowOne(x);
    MulOne(AddColumns(a, b)[x]);
    DifferenceEntry(a, b, x);
  }

  /** Without P, the syndrome Q determines one lost data disk, for any number of disks. */
  lemma OneDataAndPLost(a: seq<bv8>, b: seq<bv8>, x: nat)
    requires x < |a| && AgreeOutside(a, b, {x}) && QByte(a) == QByte(b)
    ensures a == b
  {
    hide Add, Mul, Pow, PowerSum, AddColumns;
    DifferenceOutside(a, b, {x});
    Difference(2, a, b);
    OneTerm(2, AddColumns(a, b), x);
    PowTwoNonZero(x);
    NoZeroDivisors(Pow(2, x), AddColumns(a, b)[x]);
    DifferenceEntry(a, b, x);
  }

  /** P and Q tell apart any two columns of n data bytes that differ on at most two disks. */
  ghost predicate CorrectsTwo(n: nat) {
    forall a, b, x: nat, y: nat | |a| == n && x < n && y < n && AgreeOutside(a, b, {x, y}) && PByte(a) == PByte(b) &&
        QByte(a) == QByte(b) ::
      a == b
  }

  function Zeros(n: nat): (s: seq<bv8>)
    ensures |s| == n
  {
    seq(n, _ => 0)
  }

  /** The zero column with ones on disks 0 and 255, whose weights coincide. */
  function Collision(n: nat): (s: seq<bv8>)
    requires n >= 256
    ensures |s| == n
  {
    Zeros(n)[0 := 1][255 := 1]
  }

  lemma CollisionSum(r: bv8, n: nat)
    requires n >= 256 && Pow(r, 255) == 1
    ensures PowerSum(r, Collision(n)) == 0 == PowerSum(r, Zeros(n))
  {
    hide Add, Mul, Pow;
    ZeroColumn(r, Zeros(n));
    TwoTerms(r, Collision(n), 0, 255);
    PowZero(r);
    MulOne(1);
    AddLaws(1, 1);
  }

  lemma PowZero(r: bv8)
    ensures Pow(r, 0) == 1
  {}

  lemma PowTwoOrder()
    ensures Pow(2, 255) == 1
  {
    ExpIsPow(255);
    Tables.ExpOrder();
  }

  /** Two lost data disks can be recovered from P and Q exactly when there are at most 255 data disks. */
  lemma CorrectsTwoExactly(n: nat)
    ensures CorrectsTwo(n) <==> n <= 255
  {
    hide PByte, QByte, Add, Mul, Pow, PowerSum;
    if n <= 255 {
      forall a, b, x: nat, y: nat | |a| == n && x < n && y < n && AgreeOutside(a, b, {x, y}) && PByte(a) == PByte(b) &&
          QByte(a) == QByte(b)
        ensures a == b
      {
        TwoDataLost(a, b, x, y);
      }
    } else {
      var a, b := Zeros(n), Collision(n);
      CollisionChecks(n);
      assert AgreeOutside(a, b, {0, 255});
      assert a[0] != b[0];
    }
  }

  lemma CollisionChecks(n: nat)
    requires n >= 256
    ensures PByte(Zeros(n)) == PByte(Collision(n)) && QByte(Zeros(n)) == QByte(Collision(n))
  {
    hide Add, Mul, Pow, PowerSum;
    ParityIsPowerSum(Zeros(n));
    ParityIsPowerSum(Collision(n));
    PowOne(255);
    CollisionSum(1, n);
    PowTwoOrder();
    CollisionSum(2, n);
  }

  // ----- Rows 1, 2 and 4 of the multi-failure encoder: three lost disks -----

  lemma {:induction false} PowFour(k: nat)
    ensures Pow(4, k) == Mul(Pow(2, k), Pow(2, k))
  {
    hide Add, Mul;
    if k == 0 {
      MulOne(1);
    } else {
      var u := Pow(2, k - 1);
      PowFour(k - 1);
      TwoTwos();
      // (2 * 2) * (u * u) == (2 * u) * (2 * u)
      MulAssoc(2, 2, Mul(u, u));
      MulAssoc(2, u, u);
      MulComm(Mul(2, u), u);
      MulAssoc(2, u, Mul(2, u));
    }
  }

  lemma TwoTwos()
    ensures Mul(2, 2) == 4
  {
    MulTwo(2);
  }

  /** From e + f + g = 0 and u e + v f + w g = 0: (u + w) e = (v + w) f. */
  lemma Eliminate(u: bv8, v: bv8, w: bv8, e: bv8, f: bv8, g: bv8)
    requires Add(Add(e, f), g) == 0
    requires Add(Add(Mul(u, e), Mul(v, f)), Mul(w, g)) == 0
    ensures Mul(Add(u, w), e) == Mul(Add(v, w), f)
  {
    hide Add, Mul;
    AddLaws(Add(e, f), g);
    MulAddRight(w, e, f);
    AddLaws(Add(Mul(u, e), Mul(v, f)), Mul(w, g));
    MulAddLeft(u, w, e);
    MulAddLeft(v, w, f);
    // u e + v f == w e + w f, so u e + w e == v f + w f
    AddSwap(Mul(u, e), Mul(w, e), Mul(v, f), Mul(w, f));
    AddLaws(Add(Mul(u, e), Mul(v, f)), Add(Mul(w, e), Mul(w, f)));
    AddLaws(Add(Mul(u, e), Mul(w, e)), Add(Mul(v, f), Mul(w, f)));
  }

  /** The Vandermonde system of three distinct points has only the zero solution. */
  lemma ThreeEquations(u: bv8, v: bv8, w: bv8, e: bv8, f: bv8, g: bv8)
    requires u != v && v != w && u != w
    requires Add(Add(e, f), g) == 0
    requires Add(Add(Mul(u, e), Mul(v, f)), Mul(w, g)) == 0
    requires Add(Add(Mul(Mul(u, u), e), Mul(Mul(v, v), f)), Mul(Mul(w, w), g)) == 0
    ensures e == 0 && f == 0 && g == 0
  {
    hide Add, Mul;
    var ue, vf, wg := Mul(u, e), Mul(v, f), Mul(w, g);
    MulAssoc(u, u, e);
    MulAssoc(v, v, f);
    MulAssoc(w, w, g);
    Eliminate(u, v, w, e, f, g);
    Eliminate(u, v, w, ue, vf, wg);
    // (u + w) e == (v + w) f, and (u + w) u e == (v + w) v f == v (u + w) e
    Commute3(Add(u, w), u, e);
    Commute3(Add(v, w), v, f);
    var h := Mul(Add(u, w), e);
    assert Mul(u, h) == Mul(v, h);
    MulAddLeft(u, v, h);
    AddLaws(Mul(u, h), Mul(v, h));
    NoZeroDivisors(Add(u, v), h);
    AddLaws(u, v);
    AddLaws(u, w);
    AddLaws(v, w);
    NoZeroDivisors(Add(u, w), e);
    NoZeroDivisors(Add(v, w), f);
    AddLaws(0, 0);
    AddLaws(0, g);
  }

  lemma Commute3(a: bv8, b: bv8, c: bv8)
    ensures Mul(a, Mul(b, c)) == Mul(b, Mul(a, c))
  {
    hide Mul;
    MulAssoc(a, b, c);
    MulComm(a, b);
    MulAssoc(b, a, c);
  }

  /** The check symbols of row r of the encoding matrix: the coefficient of disk d is r^(d+1). */
  function RowSymbol(r: bv8, column: seq<bv8>): (symbol: bv8) {
    Mul(r, PowerSum(r, column))
  }

  lemma RowEqual(r: bv8, a: seq<bv8>, b: seq<bv8>)
    requires r != 0 && |a| == |b| && RowSymbol(r, a) == RowSymbol(r, b)
    ensures PowerSum(r, AddColumns(a, b)) == 0
  {
    hide Mul, PowerSum, AddColumns;
    MulCancel(r, PowerSum(r, a), PowerSum(r, b));
    Difference(r, a, b);
  }

  lemma ThreeDistinctLost(a: seq<bv8>, b: seq<bv8>, x: nat, y: nat, w: nat)
    requires |a| <= 255 && x < |a| && y < |a| && w < |a| && AgreeOutside(a, b, {x, y, w})
    requires x != y && y != w && x != w
    requires RowSymbol(1, a) == RowSymbol(1, b) && RowSymbol(2, a) == RowSymbol(2, b) &&
             RowSymbol(4, a) == RowSymbol(4, b)
    ensures a == b
  {
    hide Add, Mul, Pow, PowerSum, AddColumns, RowSymbol;
    var c := AddColumns(a, b);
    DifferenceOutside(a, b, {x, y, w});
    RowEqual(1, a, b);
    RowEqual(2, a, b);
    RowEqual(4, a, b);
    ThreeTerms(1, c, x, y, w);
    ThreeTerms(2, c, x, y, w);
    ThreeTerms(4, c, x, y, w);
    UnitTerm(x, c[x]);
    UnitTerm(y, c[y]);
    UnitTerm(w, c[w]);
    PowFour(x);
    PowFour(y);
    PowFour(w);
    DistinctPowers(x, y);
    DistinctPowers(y, w);
    DistinctPowers(x, w);
    ThreeEquations(Pow(2, x), Pow(2, y), Pow(2, w), c[x], c[y], c[w]);
    DifferenceEntry(a, b, x);
    DifferenceEntry(a, b, y);
    DifferenceEntry(a, b, w);
  }

  lemma UnitTerm(k: nat, b: bv8)
    ensures Mul(Pow(1, k), b) == b
  {
    PowOne(k);
    MulOne(b);
  }

  lemma RowsGivePQ(a: seq<bv8>, b: seq<bv8>)
    requires |a| == |b| && RowSymbol(1, a) == RowSymbol(1, b) && RowSymbol(2, a) == RowSymbol(2, b)
    ensures PByte(a) == PByte(b) && QByte(a) == QByte(b)
  {
    hide Mul, PowerSum;
    ParityIsPowerSum(a);
    ParityIsPowerSum(b);
    MulCancel(1, PowerSum(1, a), PowerSum(1, b));
    MulCancel(2, PowerSum(2, a), PowerSum(2, b));
  }

  /** Rows 1, 2 and 4 determine any three lost disks, not necessarily distinct, of up to 255 data disks. */
  lemma ThreeDataLost(a: seq<bv8>, b: seq<bv8>, x: nat, y: nat, w: nat)
    requires |a| <= 255 && x < |a| && y < |a| && w < |a| && AgreeOutside(a, b, {x, y, w})
    requires RowSymbol(1, a) == RowSymbol(1, b) && RowSymbol(2, a) == RowSymbol(2, b) &&
             RowSymbol(4, a) == RowSymbol(4, b)
    ensures a == b
  {
    hide RowSymbol, PByte, QByte;
    RowsGivePQ(a, b);
    if x == y || x == w {
      TwoDataLost(a, b, y, w);
    } else if y == w {
      TwoDataLost(a, b, x, y);
    } else {
      ThreeDistinctLost(a, b, x, y, w);
    }
  }

  ghost predicate CorrectsThree(n: nat) {
    forall a, b, x: nat, y: nat, w: nat | |a| == n && x < n && y < n && w < n && AgreeOutside(a, b, {x, y, w})
        && RowSymbol(1, a) == RowSymbol(1, b) && RowSymbol(2, a) == RowSymbol(2, b) &&
            RowSymbol(4, a) == RowSymbol(4, b) ::
      a == b
  }

  /** Rows 1, 2 and 4 recover three lost data disks exactly when there are at most 255. */
  lemma CorrectsThreeExactly(n: nat)
    ensures CorrectsThree(n) <==> n <= 255
  {
    hide RowSymbol;
    if n <= 255 {
      forall a, b, x: nat, y: nat, w: nat | |a| == n && x < n && y < n && w < n && AgreeOutside(a, b, {x, y, w})
        && RowSymbol(1, a) == RowSymbol(1, b) && RowSymbol(2, a) == RowSymbol(2, b) &&
            RowSymbol(4, a) == RowSymbol(4, b)
        ensures a == b
      {
        ThreeDataLost(a, b, x, y, w);
      }
    } else {
      var a, b := Zeros(n), Collision(n);
      CollisionRows(n);
      assert AgreeOutside(a, b, {0, 255, 255});
      assert a[0] != b[0];
    }
  }

  lemma CollisionRows(n: nat)
    requires n >= 256
    ensures RowSymbol(1, Zeros(n)) == RowSymbol(1, Collision(n))
    ensures RowSymbol(2, Zeros(n)) == RowSymbol(2, Collision(n))
    ensures RowSymbol(4, Zeros(n)) == RowSymbol(4, Collision(n))
  {
    hide Mul, Pow, PowerSum;
    PowOne(255);
    CollisionSum(1, n);
    PowTwoOrder();
    CollisionSum(2, n);
    PowFour(255);
    MulOne(1);
    CollisionSum(4, n);
  }

  // ----- Recovery functions, with the interface the kernel declares -----

  /** raid6_2data_recov: both failed data disks from P and Q; the contents at x and y are not read. */
  function RecoverTwoData(damaged: seq<bv8>, x: nat, y: nat, p: bv8, q: bv8): (whole: seq<bv8>)
    requires x < |damaged| <= 255 && y < |damaged| && x != y
  {
    var zeroed := damaged[x := 0][y := 0];
    var pxy := Add(p, PowerSum(1, zeroed));
    var qxy := Add(q, PowerSum(2, zeroed));
    var u, v := Pow(2, x), Pow(2, y);
    DistinctPowers(x, y);
    AddLaws(u, v);
    var dx := Mul(Inverse(Add(u, v)), Add(qxy, Mul(v, pxy)));
    damaged[x := dx][y := Add(pxy, dx)]
  }

  /** raid6_datap_recov: a failed data disk from Q. */
  function RecoverData(damaged: seq<bv8>, x: nat, q: bv8): (whole: seq<bv8>)
    requires x < |damaged|
  {
    PowTwoNonZero(x);
    damaged[x := Mul(Inverse(Pow(2, x)), Add(q, PowerSum(2, damaged[x := 0])))]
  }

  lemma LastCancels(a: bv8, b: bv8, c: bv8)
    ensures Add(Add(a, b), Add(c, b)) == Add(a, c)
  {}

  /** Solving e + f = s, u e + v f = t for e. */
  lemma SolveTwo(u: bv8, v: bv8, e: bv8, f: bv8, s: bv8, t: bv8)
    requires u != v && s == Add(e, f) && t == Add(Mul(u, e), Mul(v, f))
    ensures Add(u, v) != 0
    ensures Mul(Inverse(Add(u, v)), Add(t, Mul(v, s))) == e
    ensures Add(s, e) == f
  {
    hide Add, Mul, Inverse;
    AddLaws(u, v);
    MulAddRight(v, e, f);
    LastCancels(Mul(u, e), Mul(v, f), Mul(v, e));
    MulAddLeft(u, v, e);
    UndoMul(Add(u, v), e);
    AddLaws(e, f);
    AddCancel(f, e);
  }

  lemma UndoMul(a: bv8, b: bv8)
    requires a != 0
    ensures Mul(Inverse(a), Mul(a, b)) == b
  {
    hide Mul, Inverse;
    MulInverse(a);
    MulComm(a, Inverse(a));
    MulAssoc(Inverse(a), a, b);
    MulOne(b);
  }

  /** Recovery inverts the encoder: two data disks from P and Q. */
  lemma RecoverTwoDataInverts(column: seq<bv8>, damaged: seq<bv8>, x: nat, y: nat)
    requires x < |damaged| <= 255 && y < |damaged| && x != y && AgreeOutside(column, damaged, {x, y})
    ensures RecoverTwoData(damaged, x, y, PByte(column), QByte(column)) == column
  {
    hide Add, Mul, Pow, PowerSum, Inverse;
    var zeroed := damaged[x := 0][y := 0];
    assert column[x := 0][y := 0] == zeroed;
    var e, f := column[x], column[y];
    PeelTwo(1, column, x, y);
    PeelTwo(2, column, x, y);
    UnitTerm(x, e);
    UnitTerm(y, f);
    ParityIsPowerSum(column);
    AddCancel(Add(e, f), PowerSum(1, zeroed));
    AddCancel(Add(Mul(Pow(2, x), e), Mul(Pow(2, y), f)), PowerSum(2, zeroed));
    DistinctPowers(x, y);
    SolveTwo(Pow(2, x), Pow(2, y), e, f, Add(e, f), Add(Mul(Pow(2, x), e), Mul(Pow(2, y), f)));
    assert damaged[x := e][y := f] == column;
  }

  lemma PeelTwo(r: bv8, column: seq<bv8>, x: nat, y: nat)
    requires x < |column| && y < |column| && x != y
    ensures PowerSum(r, column)
         == Add(Add(Mul(Pow(r, x), column[x]), Mul(Pow(r, y), column[y])), PowerSum(r, column[x := 0][y := 0]))
  {
    hide Add, Mul, Pow, PowerSum;
    Peel(r, column, x);
    Peel(r, column[x := 0], y);
    var s, t, u := PowerSum(r, column[x := 0][y := 0]), Mul(Pow(r, x), column[x]), Mul(Pow(r, y), column[y]);
    AddAssoc(s, u, t);
    AddLaws(u, t);
    AddLaws(s, Add(t, u));
  }

  /** Recovery inverts the encoder: one data disk from Q, P being lost too. */
  lemma RecoverDataInverts(column: seq<bv8>, damaged: seq<bv8>, x: nat)
    requires x < |damaged| && AgreeOutside(column, damaged, {x})
    ensures RecoverData(damaged, x, QByte(column)) == column
  {
    hide Add, Mul, Pow, PowerSum, Inverse;
    PowTwoNonZero(x);
    Peel(2, column, x);
    assert column[x := 0] == damaged[x := 0];
    var s, t := PowerSum(2, damaged[x := 0]), Mul(Pow(2, x), column[x]);
    AddLaws(s, t);
    AddCancel(t, s);
    UndoMul(Pow(2, x), column[x]);
    assert damaged[x := column[x]] == column;
  }

  // ----- Whole buffers -----

  /** Two stripes encoded to the same P and Q that differ on at most two data disks hold the same data. */
  lemma StripesEqual(data: seq<seq<bv8>>, other: seq<seq<bv8>>, p: seq<bv8>, q: seq<bv8>, bytes: nat, x: nat, y: nat)
    requires |data| == |other| <= 255 && x < |data| && y < |data|
    requires Encoded(data, p, q, bytes) && Encoded(other, p, q, bytes)
    requires forall z :: 0 <= z < |data| && z != x && z != y ==> data[z][..bytes] == other[z][..bytes]
    ensures forall z :: 0 <= z < |data| ==> data[z][..bytes] == other[z][..bytes]
  {
    hide PByte, QByte;
    forall i | 0 <= i < bytes
      ensures Column(data, i) == Column(other, i)
    {
      forall z | 0 <= z < |data| && z !in {x, y}
        ensures Column(data, i)[z] == Column(other, i)[z]
      {
        assert data[z][..bytes][i] == other[z][..bytes][i];
      }
      TwoDataLost(Column(data, i), Column(other, i), x, y);
    }
    forall z, i | 0 <= z < |data| && 0 <= i < bytes
      ensures data[z][i] == other[z][i]
    {
      assert Column(data, i)[z] == Column(other, i)[z];
    }
  }
}
