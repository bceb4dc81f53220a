/** What the check symbols recover as the multi-failure encoder writes them, with the table product in place of the
    field product: two lost disks while it stays in its tables, and beyond two data disks no more than that. */
module WrittenErasures {
  import opened GF256
  import opened Tables
  import opened Logarithms
  import opened MultGf
  import opened Syndrome
  import opened Erasure
  import opened MultiRs
  import opened MultiSymbols

  // ----- Lost disks in the written symbols -----

  /** What disk d contributes to the symbol of row r. */
  function Share(r: bv8, d: nat, v: bv8, stray: nat): (share: bv8)
    requires stray < 256
    ensures v == 0 ==> share == 0
  {
    TableProduct(Coefficient(r, d, stray), v, stray)
  }

  lemma {:induction false} WrittenPeel(r: bv8, c: seq<bv8>, x: nat, stray: nat)
    requires x < |c| && stray < 256
    ensures WrittenSymbol(r, c, stray) == Add(WrittenSymbol(r, c[x := 0], stray), Share(r, x, c[x], stray))
    decreases |c|
  {
    hide Add, TableProduct, Coefficient;
    var z := |c| - 1;
    var s := WrittenSymbol(r, c[..z], stray);
    var t := Share(r, z, c[z], stray);
    assert WrittenSymbol(r, c, stray) == Add(s, t);
    if x == z {
      assert c[x := 0][..z] == c[..z];
      assert Share(r, z, 0, stray) == 0;
      AddLaws(s, 0);
    } else {
      WrittenPeel(r, c[..z], x, stray);
      assert c[x := 0][..z] == c[..z][x := 0];
      var s0, u := WrittenSymbol(r, c[..z][x := 0], stray), Share(r, x, c[x], stray);
      AddAssoc(s0, u, t);
      AddAssoc(s0, t, u);
      AddLaws(u, t);
    }
  }

  lemma RegroupTwo(s: bv8, p: bv8, q: bv8, p': bv8, q': bv8)
    requires Add(Add(s, q), p) == Add(Add(s, q'), p')
    ensures Add(Add(p, p'), Add(q, q')) == 0
  {}

  /** Two columns with the same symbol of row r that differ on x and y only. */
  lemma TwoShares(r: bv8, a: seq<bv8>, b: seq<bv8>, x: nat, y: nat, stray: nat)
    requires stray < 256 && x < |a| && y < |a| && x != y && AgreeOutside(a, b, {x, y})
    requires WrittenSymbol(r, a, stray) == WrittenSymbol(r, b, stray)
    ensures Add(Add(Share(r, x, a[x], stray), Share(r, x, b[x], stray)),
                Add(Share(r, y, a[y], stray), Share(r, y, b[y], stray))) == 0
  {
    hide Add, Share, WrittenSymbol;
    WrittenPeel(r, a, x, stray);
    WrittenPeel(r, a[x := 0], y, stray);
    WrittenPeel(r, b, x, stray);
    WrittenPeel(r, b[x := 0], y, stray);
    var rest := a[x := 0][y := 0];
    assert rest == b[x := 0][y := 0];
    RegroupTwo(WrittenSymbol(r, rest, stray), Share(r, x, a[x], stray), Share(r, y, a[y], stray),
               Share(r, x, b[x], stray), Share(r, y, b[y], stray));
  }

  lemma ShareOne(d: nat, v: bv8, stray: nat)
    requires stray < 256 && v != 255
    ensures Share(1, d, v, stray) == v
  {
    hide TableProduct;
    CoefficientOne(d, stray);
    TableProductOne(v, stray);
  }

  // ----- The table product by a power of two -----

  /** How far below the order of two the logarithm of v is: v is 2 to the power -Late(v). */
  function Late(v: bv8): (i: nat)
    requires v != 0
    ensures 1 <= i <= 255
  {
    255 - LogOf(v)
  }

  /** What the lost bit of the sum costs, divided by three: the product by 2^k loses a half from this on. */
  function Rest(k: nat, v: bv8): (rest: bv8) {
    if v != 0 && Late(v) < k then Exp(k - 1 - Late(v)) else 0
  }

  lemma HalfByThree(e: bv8)
    ensures Add(Double(e), Mul(3, e)) == e
  {
    hide Mul, Double, Add;
    ThreeIsSum();
    MulAddLeft(2, 1, e);
    MulTwo(e);
    MulOne(e);
    AddCancel(e, Double(e));
    AddLaws(Double(e), e);
  }

  lemma ThreeIsSum()
    ensures Add(2, 1) == 3
  {}

  /** The table product by 2^k is the field product plus three times the rest. */
  lemma ProductAndRest(k: nat, v: bv8, stray: nat)
    requires 1 <= k < 175 && v != 255 && stray < 256
    ensures TableProduct(Exp(k), v, stray) == Add(Mul(Exp(k), v), Mul(3, Rest(k, v)))
  {
    hide TableProduct, Mul, Exp, Add, Double, Halve, LogOf;
    PowerBelow255(k);
    LogExp(k);
    TableProductMeaning(Exp(k), v, stray);
    MulZero(3);
    AddLaws(Mul(Exp(k), v), 0);
    if v != 0 && Late(v) < k {
      var m := k - 1 - Late(v);
      MulByLogs(Exp(k), v);
      ExpEqual(k + LogOf(v), m + 1);
      ExpPredecessor(m + 1);
      ExpStep(m);
      HalfByThree(Exp(m));
    }
  }

  lemma ShareTwo(d: nat, v: bv8, stray: nat)
    requires d < 11 && v != 255 && stray < 256
    ensures Share(2, d, v, stray) == Add(Mul(Exp(d + 1), v), Mul(3, Rest(d + 1, v)))
  {
    hide TableProduct, Mul, Exp, Add, Rest, Coefficient;
    CoefficientIsPower(2, d, stray);
    ProductAndRest(d + 1, v, stray);
  }

  lemma ShareFour(d: nat, v: bv8, stray: nat)
    requires d < 11 && v != 255 && stray < 256
    ensures Share(4, d, v, stray) == Add(Mul(Exp(2 * d + 2), v), Mul(3, Rest(2 * d + 2, v)))
  {
    hide TableProduct, Mul, Exp, Add, Rest, Coefficient;
    CoefficientIsPower(4, d, stray);
    ProductAndRest(2 * d + 2, v, stray);
  }

  // ----- Rows two and four -----

  function Sum4(a: bv8, b: bv8, c: bv8, d: bv8): (sum: bv8) {
    Add(Add(a, b), Add(c, d))
  }

  lemma Split4(a: bv8, b: bv8, c: bv8, d: bv8, a': bv8, b': bv8, c': bv8, d': bv8)
    ensures Sum4(Add(a, a'), Add(b, b'), Add(c, c'), Add(d, d')) == Add(Sum4(a, b, c, d), Sum4(a', b', c', d'))
  {
    hide Add;
    AddSwap(a, a', b, b');
    AddSwap(c, c', d, d');
    AddSwap(Add(a, b), Add(a', b'), Add(c, d), Add(c', d'));
  }

  lemma MulSum4(f: bv8, a: bv8, b: bv8, c: bv8, d: bv8)
    ensures Sum4(Mul(f, a), Mul(f, b), Mul(f, c), Mul(f, d)) == Mul(f, Sum4(a, b, c, d))
  {
    hide Add, Mul;
    MulAddRight(f, a, b);
    MulAddRight(f, c, d);
    MulAddRight(f, Add(a, b), Add(c, d));
  }

  /** One row of the system for bytes p, p' on one disk and q, q' on another. */
  lemma RowEquation(j: nat, k: nat, p: bv8, p': bv8, q: bv8, q': bv8)
    requires Add(p, p') == Add(q, q')
    requires Sum4(Add(Mul(Exp(j), p), Mul(3, Rest(j, p))), Add(Mul(Exp(j), p'), Mul(3, Rest(j, p'))),
                  Add(Mul(Exp(k), q), Mul(3, Rest(k, q))), Add(Mul(Exp(k), q'), Mul(3, Rest(k, q')))) == 0
    ensures Mul(Add(Exp(j), Exp(k)), Add(p, p')) == Mul(3, Sum4(Rest(j, p), Rest(j, p'), Rest(k, q), Rest(k, q')))
  {
    hide Add, Mul, Exp, Rest;
    var r1, r2, r3, r4 := Rest(j, p), Rest(j, p'), Rest(k, q), Rest(k, q');
    Split4(Mul(Exp(j), p), Mul(Exp(j), p'), Mul(Exp(k), q), Mul(Exp(k), q'), Mul(3, r1), Mul(3, r2), Mul(3, r3),
        Mul(3, r4));
    MulSum4(3, r1, r2, r3, r4);
    MulAddRight(Exp(j), p, p');
    MulAddRight(Exp(k), q, q');
    MulAddLeft(Exp(j), Exp(k), Add(p, p'));
    AddLaws(Mul(Add(Exp(j), Exp(k)), Add(p, p')), Mul(3, Sum4(r1, r2, r3, r4)));
  }

  lemma MiddleCancels(a: bv8, b: bv8, c: bv8)
    ensures Add(Add(a, b), Add(b, c)) == Add(a, c)
  {}

  lemma SquareOfSum(u: bv8, v: bv8)
    ensures Add(Mul(u, u), Mul(v, v)) == Mul(Add(u, v), Add(u, v))
  {
    hide Add, Mul;
    MulAddLeft(u, v, Add(u, v));
    MulAddRight(u, u, v);
    MulAddRight(v, u, v);
    MulComm(u, v);
    MiddleCancels(Mul(u, u), Mul(u, v), Mul(v, v));
  }

  /** Row four being the square of row two, the rests of the two rows are tied without the difference of the bytes. */
  lemma RestsTied(w: bv8, delta: bv8, r2: bv8, r4: bv8)
    requires Mul(w, delta) == Mul(3, r2) && Mul(Mul(w, w), delta) == Mul(3, r4)
    ensures Add(r4, Mul(w, r2)) == 0
  {
    hide Add, Mul;
    MulAssoc(w, w, delta);
    Commute3(w, 3, r2);
    MulCancel(3, r4, Mul(w, r2));
    AddLaws(r4, Mul(w, r2));
  }

  // ----- The tie as a sum of four powers of two -----

  /** Where byte v on disk x appears in the tie, with the other disk y: as this power of two, or, at -1, not at all. */
  function Place(x: nat, y: nat, v: bv8): (e: int)
    ensures -1 <= e
  {
    if v == 0 || Late(v) > 2 * x + 1 then -1
    else if Late(v) <= x then x + y + 1 - Late(v)
    else 2 * x + 1 - Late(v)
  }

  function PowerAt(e: int): (power: bv8) {
    if e == 0 then 1 else if e == 1 then 2 else if e == 2 then 4 else if e == 3 then 8 else if e == 4 then 16
    else if e == 5 then 32 else if e == 6 then 64 else if e == 7 then 128 else if e == 8 then 29 else if e == 9 then 58
    else if e == 10 then 116 else if e == 11 then 232 else if e == 12 then 205 else if e == 13 then 135 else if e == 14
        then 19
    else if e == 15 then 38 else if e == 16 then 76 else if e == 17 then 152 else if e == 18 then 45 else if e == 19
        then 90
    else if e == 20 then 180 else 0
  }

  lemma {:induction false} PowerAtIsExp(e: nat)
    requires e <= 20
    ensures PowerAt(e) == Exp(e)
  {
    hide Exp, Double;
    if e == 0 {
      ExpZero();
    } else {
      PowerAtIsExp(e - 1);
      ExpStep(e - 1);
      DoubledPowers(e - 1);
    }
  }

  lemma DoubledPowers(e: nat)
    requires e < 20
    ensures Double(PowerAt(e)) == PowerAt(e + 1)
  {}

  /** The exponent e belongs to relation f, shifted by m: the multiples with four terms of the field polynomial, up to
      degree 20, are 1 + z + z^4 + z^14, 1 + z^8 + z^9 + z^15, 1 + z^7 + z^12 + z^16 and 1 + z^17 + z^18 + z^20. */
  predicate In(f: int, m: int, e: int) {
    || e == m
    || (f == 0 && (e == m + 1 || e == m + 4 || e == m + 14))
    || (f == 1 && (e == m + 8 || e == m + 9 || e == m + 15))
    || (f == 2 && (e == m + 7 || e == m + 12 || e == m + 16))
    || (f == 3 && (e == m + 17 || e == m + 18 || e == m + 20))
  }

  predicate Related(f: int, m: int, a: int, b: int, c: int, d: int) {
    && 0 <= f <= 3 && 0 <= m && a != b && a != c && a != d && b != c && b != d && c != d
    && In(f, m, a) && In(f, m, b) && In(f, m, c) && In(f, m, d)
  }

  lemma FourFromZero(b: int, c: int, d: int) returns (f: int)
    requires 0 < b < c < d <= 20 && Sum4(1, PowerAt(b), PowerAt(c), PowerAt(d)) == 0
    ensures 0 <= f <= 3 && In(f, 0, b) && In(f, 0, c) && In(f, 0, d)
  {
    f := if b == 1 then 0 else if b == 8 then 1 else if b == 7 then 2 else 3;
  }

  lemma NoThree(c: int, d: int)
    requires 0 < c < d <= 20
    ensures Sum4(0, PowerAt(0), PowerAt(c), PowerAt(d)) != 0
  {}

  /** A power of two comes out of a sum. */
  lemma Factor(a: nat, b: nat, c: nat, d: nat)
    requires a <= b && a <= c && a <= d <= 20 && b <= 20 && c <= 20
    ensures Sum4(PowerAt(a), PowerAt(b), PowerAt(c), PowerAt(d)) == 0
       <==> Sum4(1, PowerAt(b - a), PowerAt(c - a), PowerAt(d - a)) == 0
  {
    hide PowerAt, Sum4, Exp, Mul;
    FactorOne(a, b);
    FactorOne(a, c);
    FactorOne(a, d);
    PowerAtIsExp(a);
    MulOne(Exp(a));
    MulSum4(Exp(a), 1, PowerAt(b - a), PowerAt(c - a), PowerAt(d - a));
    ExpNonZero(a);
    NoZeroDivisors(Exp(a), Sum4(1, PowerAt(b - a), PowerAt(c - a), PowerAt(d - a)));
  }

  lemma FactorOne(a: nat, b: nat)
    requires a <= b <= 20
    ensures PowerAt(b) == Mul(Exp(a), PowerAt(b - a))
  {
    hide PowerAt, Exp, Mul;
    PowerAtIsExp(b);
    PowerAtIsExp(b - a);
    ExpAdd(a, b - a);
  }

  lemma NoneAt()
    ensures PowerAt(-1) == 0 && PowerAt(0) == 1
  {}

  lemma NoThreePowers(b: nat, c: nat, d: nat)
    requires b < c < d <= 20
    ensures Sum4(0, PowerAt(b), PowerAt(c), PowerAt(d)) != 0
  {
    hide PowerAt, Exp, Mul, Sum4;
    FactorOne(b, b);
    FactorOne(b, c);
    FactorOne(b, d);
    MulZero(Exp(b));
    MulSum4(Exp(b), 0, PowerAt(0), PowerAt(c - b), PowerAt(d - b));
    NoThree(c - b, d - b);
    ExpNonZero(b);
    NoZeroDivisors(Exp(b), Sum4(0, PowerAt(0), PowerAt(c - b), PowerAt(d - b)));
  }

  /** Different powers up to 2^20 sum to zero only in the four relations. */
  lemma Relation(a: int, b: int, c: int, d: int) returns (f: int)
    requires -1 <= a < b < c < d <= 20 && Sum4(PowerAt(a), PowerAt(b), PowerAt(c), PowerAt(d)) == 0
    ensures Related(f, a, a, b, c, d)
  {
    hide PowerAt, Exp, Mul, Sum4;
    f := 0;
    NoneAt();
    if a == -1 {
      NoThreePowers(b, c, d);
    } else {
      Factor(a, b, c, d);
      f := FourFromZero(b - a, c - a, d - a);
    }
  }

  lemma SortedPowers(a: int, b: int, c: int, d: int) returns (f: int)
    requires -1 <= a <= b <= c <= d <= 20
    requires Sum4(PowerAt(a), PowerAt(b), PowerAt(c), PowerAt(d)) == 0
    ensures (a == b && c == d) || Related(f, a, a, b, c, d)
  {
    hide PowerAt, Add;
    f := 0;
    var pa, pb, pc, pd := PowerAt(a), PowerAt(b), PowerAt(c), PowerAt(d);
    AddLaws(pa, pb);
    AddLaws(pc, pd);
    AddLaws(Add(pa, pb), Add(pc, pd));
    if a < b && c < d {
      if b == c {
        OneCancels(pa, pb, pd);
        DifferentPowers(a, d);
      } else {
        f := Relation(a, b, c, d);
      }
    } else if a < b {
      DifferentPowers(a, b);
    } else if c < d {
      DifferentPowers(c, d);
    }
  }

  lemma OneCancels(a: bv8, b: bv8, d: bv8)
    requires Sum4(a, b, b, d) == 0
    ensures a == d
  {}

  lemma DifferentPowers(a: int, b: int)
    requires -1 <= a < b <= 20
    ensures PowerAt(a) != PowerAt(b)
  {}

  predicate Paired(a: int, b: int, c: int, d: int) {
    (a == b && c == d) || (a == c && b == d) || (a == d && b == c)
  }

  lemma SwapSums(a: bv8, b: bv8, c: bv8, d: bv8)
    ensures Sum4(a, b, c, d) == Sum4(b, a, c, d) == Sum4(a, c, b, d) == Sum4(a, b, d, c)
  {
    hide Add;
    AddLaws(a, b);
    AddSwap(a, b, c, d);
    AddLaws(c, d);
  }

  /** Four powers of two up to 2^20 that sum to zero are two equal pairs, or in one of the relations. */
  lemma PowersPair(a: int, b: int, c: int, d: int) returns (f: int, m: int)
    requires -1 <= a <= 20 && -1 <= b <= 20 && -1 <= c <= 20 && -1 <= d <= 20
    requires Sum4(PowerAt(a), PowerAt(b), PowerAt(c), PowerAt(d)) == 0
    ensures Paired(a, b, c, d) || Related(f, m, a, b, c, d)
    decreases 4 * a + 3 * b + 2 * c + d + 100
  {
    hide PowerAt, Sum4, In;
    SwapSums(PowerAt(a), PowerAt(b), PowerAt(c), PowerAt(d));
    if a > b {
      f, m := PowersPair(b, a, c, d);
    } else if b > c {
      f, m := PowersPair(a, c, b, d);
    } else if c > d {
      f, m := PowersPair(a, b, d, c);
    } else {
      f := SortedPowers(a, b, c, d);
      m := a;
    }
  }

  /** The part of byte v in the tie. */
  lemma PlaceInTie(x: nat, y: nat, v: bv8)
    requires x + y <= 19 && x < 11 && Place(x, y, v) <= 20
    ensures Add(Rest(2 * x + 2, v), Mul(Add(Exp(x + 1), Exp(y + 1)), Rest(x + 1, v))) == PowerAt(Place(x, y, v))
  {
    hide Add, Mul, Exp, LogOf, PowerAt;
    var w := Add(Exp(x + 1), Exp(y + 1));
    MulZero(w);
    NoPower();
    if v == 0 || Late(v) > x {
      AddLaws(Rest(2 * x + 2, v), 0);
      if v != 0 && Late(v) <= 2 * x + 1 {
        PowerAtIsExp(2 * x + 1 - Late(v));
      }
    } else {
      var i := Late(v);
      MulAddLeft(Exp(x + 1), Exp(y + 1), Exp(x - i));
      ExpAdd(x + 1, x - i);
      ExpAdd(y + 1, x - i);
      AddCancel(Exp(x + y + 1 - i), Exp(2 * x + 1 - i));
      PowerAtIsExp(x + y + 1 - i);
    }
  }

  lemma NoPower()
    ensures PowerAt(-1) == 0 && Add(0, 0) == 0
  {}

  // ----- The relations do not help -----

  function PlaceOfLate(x: nat, y: nat, i: nat): (e: int) {
    if i <= x then x + y + 1 - i else 2 * x + 1 - i
  }

  /** Places in a relation: then the bytes are not in one, too. */
  lemma NoTwoRelations(x: nat, y: nat, i: nat, i': nat, j: nat, j': nat, f: int, m: int, f': int, m': int)
    requires x < y <= 10 && 1 <= i < i' <= 2 * x + 1 && 1 <= j < j' <= 2 * y + 1
    requires Related(f, m, PlaceOfLate(x, y, i), PlaceOfLate(x, y, i'), PlaceOfLate(y, x, j), PlaceOfLate(y, x, j'))
    ensures !Related(f', m', 21 - i, 21 - i', 21 - j, 21 - j')
  {}

  /** Nor are they the same on both disks. */
  lemma NoCommonBytes(x: nat, y: nat, i: nat, i': nat, f: int, m: int)
    requires x < y <= 10 && 1 <= i <= 2 * x + 1 && 1 <= i' <= 2 * x + 1
    ensures !Related(f, m, PlaceOfLate(x, y, i), PlaceOfLate(x, y, i'), PlaceOfLate(y, x, i), PlaceOfLate(y, x, i'))
  {}

  /** A late byte, lifted to a power of two up to 2^20. */
  lemma Lifted(v: bv8)
    requires v != 0 && Late(v) <= 21
    ensures Mul(Exp(21), v) == PowerAt(21 - Late(v))
  {
    hide Mul, Exp, PowerAt, LogOf;
    ExpLog(v);
    ExpAdd(21, LogOf(v));
    ExpEqual(21 + LogOf(v), 21 - Late(v));
    PowerAtIsExp(21 - Late(v));
  }

  lemma LiftedSum(p: bv8, p': bv8, q: bv8, q': bv8)
    requires p != 0 && p' != 0 && q != 0 && q' != 0 && Late(p) <= 21 && Late(p') <= 21 && Late(q) <= 21 &&
             Late(q') <= 21
    requires Add(p, p') == Add(q, q')
    ensures Sum4(PowerAt(21 - Late(p)), PowerAt(21 - Late(p')), PowerAt(21 - Late(q)), PowerAt(21 - Late(q'))) == 0
  {
    hide Mul, Exp, PowerAt, Late, Add;
    Lifted(p);
    Lifted(p');
    Lifted(q);
    Lifted(q');
    MulSum4(Exp(21), p, p', q, q');
    AddLaws(Add(p, p'), Add(q, q'));
    MulZero(Exp(21));
  }

  lemma PlaceLate(x: nat, y: nat, v: bv8)
    requires Place(x, y, v) >= 0
    ensures v != 0 && Late(v) <= 2 * x + 1 && Place(x, y, v) == PlaceOfLate(x, y, Late(v))
  {
    hide LogOf;
  }

  lemma PlacesUnrelated(x: nat, y: nat, p: bv8, p': bv8, q: bv8, q': bv8, f: int, m: int)
    requires x < y < 11 && p != p' && q != q' && Add(p, p') == Add(q, q')
    ensures !Related(f, m, Place(x, y, p), Place(x, y, p'), Place(y, x, q), Place(y, x, q'))
  {
    hide PowerAt, Late, Place, PlaceOfLate, Add, In, Related, Sum4;
    if Related(f, m, Place(x, y, p), Place(x, y, p'), Place(y, x, q), Place(y, x, q')) {
      Present4(f, m, Place(x, y, p), Place(x, y, p'), Place(y, x, q), Place(y, x, q'));
      PlaceLate(x, y, p);
      PlaceLate(x, y, p');
      PlaceLate(y, x, q);
      PlaceLate(y, x, q');
      var i, i', j, j' := Late(p), Late(p'), Late(q), Late(q');
      DifferentLate(p, p');
      DifferentLate(q, q');
      LiftedSum(p, p', q, q');
      var f', m' := PowersPair(21 - i, 21 - i', 21 - j, 21 - j');
      if Paired(21 - i, 21 - i', 21 - j, 21 - j') {
        NoCommonBytes(x, y, i, i', f, m);
        RelatedSwap(f, m, Place(x, y, p), Place(x, y, p'), Place(y, x, q), Place(y, x, q'));
      } else {
        NoTwoRelationsUnsorted(x, y, i, i', j, j', f, m, f', m');
      }
    }
  }

  lemma Present4(f: int, m: int, a: int, b: int, c: int, d: int)
    requires Related(f, m, a, b, c, d)
    ensures a >= 0 && b >= 0 && c >= 0 && d >= 0
  {}

  lemma RelatedSwap(f: int, m: int, a: int, b: int, c: int, d: int)
    requires Related(f, m, a, b, c, d)
    ensures Related(f, m, a, b, d, c) && Related(f, m, b, a, c, d) && Related(f, m, b, a, d, c)
  {
    hide In;
  }

  lemma DifferentLate(p: bv8, q: bv8)
    requires p != 0 && q != 0 && p != q
    ensures Late(p) != Late(q)
  {
    hide LogOf, Exp;
    ExpLog(p);
    ExpLog(q);
  }

  lemma NoTwoRelationsUnsorted(x: nat, y: nat, i: nat, i': nat, j: nat, j': nat, f: int, m: int, f': int, m': int)
    requires x < y <= 10 && 1 <= i <= 2 * x + 1 && 1 <= i' <= 2 * x + 1 && 1 <= j <= 2 * y + 1 && 1 <= j' <= 2 * y + 1
    requires i != i' && j != j'
    requires Related(f, m, PlaceOfLate(x, y, i), PlaceOfLate(x, y, i'), PlaceOfLate(y, x, j), PlaceOfLate(y, x, j'))
    ensures !Related(f', m', 21 - i, 21 - i', 21 - j, 21 - j')
  {
    hide In, PlaceOfLate;
    if Related(f', m', 21 - i, 21 - i', 21 - j, 21 - j') {
      RelatedSwap(f, m, PlaceOfLate(x, y, i), PlaceOfLate(x, y, i'), PlaceOfLate(y, x, j), PlaceOfLate(y, x, j'));
      RelatedSwap(f', m', 21 - i, 21 - i', 21 - j, 21 - j');
      NoTwoRelations(x, y, if i < i' then i else i', if i < i' then i' else i, if j < j' then j else j', if j < j'
          then j' else j, f, m, f', m');
    }
  }

  lemma TieSplits(w: bv8, a: bv8, b: bv8, c: bv8, d: bv8, a': bv8, b': bv8, c': bv8, d': bv8)
    ensures Sum4(Add(a, Mul(w, a')), Add(b, Mul(w, b')), Add(c, Mul(w, c')), Add(d, Mul(w, d')))
         == Add(Sum4(a, b, c, d), Mul(w, Sum4(a', b', c', d')))
  {
    hide Sum4, Mul, Add;
    Split4(a, b, c, d, Mul(w, a'), Mul(w, b'), Mul(w, c'), Mul(w, d'));
    MulSum4(w, a', b', c', d');
  }

  /** Two bytes on disk x and two on disk y that rows one, two and four cannot tell apart. */
  predicate Confused(x: nat, y: nat, p: bv8, p': bv8, q: bv8, q': bv8) {
    && x < y < 11 && p != p' && Add(p, p') == Add(q, q')
    && Mul(Add(Exp(x + 1), Exp(y + 1)), Add(p, p')) == Mul(3,
        Sum4(Rest(x + 1, p), Rest(x + 1, p'), Rest(y + 1, q), Rest(y + 1, q')))
    && Paired(Place(x, y, p), Place(x, y, p'), Place(y, x, q), Place(y, x, q'))
  }

  lemma PlaceBound(x: nat, y: nat, v: bv8)
    requires x != y && x < 11 && y < 11
    ensures Place(x, y, v) <= 20
  {
    hide LogOf;
  }

  /** Confusion from the equations of the three rows. */
  lemma ConfusedByRows(x: nat, y: nat, p: bv8, p': bv8, q: bv8, q': bv8)
    requires x < y < 11 && p != p' && Add(p, p') == Add(q, q')
    requires Sum4(Add(Mul(Exp(x + 1), p), Mul(3, Rest(x + 1, p))), Add(Mul(Exp(x + 1), p'), Mul(3, Rest(x + 1, p'))),
                  Add(Mul(Exp(y + 1), q), Mul(3, Rest(y + 1, q))), Add(Mul(Exp(y + 1), q'), Mul(3, Rest(y + 1, q'))))
                      == 0
    requires Sum4(Add(Mul(Exp(2 * x + 2), p), Mul(3, Rest(2 * x + 2, p))),
             Add(Mul(Exp(2 * x + 2), p'), Mul(3, Rest(2 * x + 2, p'))),
                  Add(Mul(Exp(2 * y + 2), q), Mul(3, Rest(2 * y + 2, q))),
                      Add(Mul(Exp(2 * y + 2), q'), Mul(3, Rest(2 * y + 2, q')))) == 0
    ensures Confused(x, y, p, p', q, q')
  {
    hide Add, Mul, Exp, Rest, Place, PowerAt, Sum4;
    RowEquation(x + 1, y + 1, p, p', q, q');
    RowEquation(2 * x + 2, 2 * y + 2, p, p', q, q');
    var u, v := Exp(x + 1), Exp(y + 1);
    var w := Add(u, v);
    SquareOfSum(u, v);
    ExpAdd(x + 1, x + 1);
    ExpAdd(y + 1, y + 1);
    var r2 := Sum4(Rest(x + 1, p), Rest(x + 1, p'), Rest(y + 1, q), Rest(y + 1, q'));
    var r4 := Sum4(Rest(2 * x + 2, p), Rest(2 * x + 2, p'), Rest(2 * y + 2, q), Rest(2 * y + 2, q'));
    RestsTied(w, Add(p, p'), r2, r4);
    TieSplits(w, Rest(2 * x + 2, p), Rest(2 * x + 2, p'), Rest(2 * y + 2, q), Rest(2 * y + 2, q'),
              Rest(x + 1, p), Rest(x + 1, p'), Rest(y + 1, q), Rest(y + 1, q'));
    PlaceBound(x, y, p);
    PlaceBound(x, y, p');
    PlaceBound(y, x, q);
    PlaceBound(y, x, q');
    AddLaws(u, v);
    PlaceInTie(x, y, p);
    PlaceInTie(x, y, p');
    PlaceInTie(y, x, q);
    PlaceInTie(y, x, q');
    var f, m := PowersPair(Place(x, y, p), Place(x, y, p'), Place(y, x, q), Place(y, x, q'));
    AddLaws(p, p');
    AddLaws(q, q');
    PlacesUnrelated(x, y, p, p', q, q', f, m);
  }

  // ----- No pairing is possible -----

  lemma SameLog(p: bv8, q: bv8)
    requires p != 0 && q != 0 && Late(p) == Late(q)
    ensures p == q
  {
    hide LogOf, Exp;
    ExpLog(p);
    ExpLog(q);
  }

  /** A late byte's rest is its product, as the exponents below the order cancel. */
  lemma RestIsProduct(x: nat, v: bv8)
    requires v != 0 && Late(v) <= x
    ensures Rest(x + 1, v) == Mul(Exp(x), v)
  {
    hide LogOf, Exp, Mul;
    ExpLog(v);
    ExpAdd(x, LogOf(v));
    ExpEqual(x + LogOf(v), x - Late(v));
  }

  /** Bytes of the two disks in the same place: neither is in row two's rests, or they are equal and both are. */
  predicate Balanced(x: nat, y: nat, p: bv8, q: bv8) {
    && Rest(x + 1, p) == 0 && Rest(y + 1, q) == 0 && (p == q ==> Place(x, y, p) == -1)
  }

  predicate Equalled(x: nat, y: nat, p: bv8, q: bv8) {
    && p == q != 0 && Late(p) <= x
    && Rest(x + 1, p) == Mul(Exp(x), p) && Rest(y + 1, q) == Mul(Exp(y), p)
  }

  lemma PlacesMeet(x: nat, y: nat, p: bv8, q: bv8)
    requires x < y < 11 && Place(x, y, p) == Place(y, x, q)
    ensures Balanced(x, y, p, q) || Equalled(x, y, p, q)
  {
    hide LogOf, Exp, Mul;
    if p != 0 && Late(p) <= x {
      assert Late(q) <= y;
      SameLog(p, q);
      RestIsProduct(x, p);
      RestIsProduct(y, q);
    }
  }

  lemma SumNonZero(x: nat, y: nat)
    requires x < y < 11
    ensures Add(Exp(x), Exp(y)) != 0
    ensures Add(Exp(x + 1), Exp(y + 1)) == Double(Add(Exp(x), Exp(y)))
  {
    hide Add, Exp, Double;
    ExpEqual(x, y);
    AddLaws(Exp(x), Exp(y));
    ExpStep(x);
    ExpStep(y);
    DoubleAdd(Exp(x), Exp(y));
  }

  /** The rests of row two do not vanish altogether. */
  lemma SomeRest(x: nat, y: nat, p: bv8, p': bv8, q: bv8, q': bv8)
    requires Confused(x, y, p, p', q, q')
    ensures Sum4(Rest(x + 1, p), Rest(x + 1, p'), Rest(y + 1, q), Rest(y + 1, q')) != 0
  {
    hide Add, Exp, Mul, Double, Rest, Place, Sum4;
    SumNonZero(x, y);
    DoubleZero(Add(Exp(x), Exp(y)));
    AddLaws(p, p');
    NoZeroDivisors(Double(Add(Exp(x), Exp(y))), Add(p, p'));
    MulZero(3);
  }

  lemma ZeroSums(a: bv8, b: bv8)
    ensures Sum4(0, 0, 0, 0) == 0
    ensures Sum4(a, 0, b, 0) == Add(a, b) == Sum4(0, a, 0, b)
  {}

  lemma Cancelled(p: bv8, p': bv8, q: bv8, q': bv8)
    requires Add(p, p') == Add(q, q')
    ensures p == q <==> p' == q'
  {
    hide Add;
    AddCancel(p', p);
    AddCancel(q', q);
    AddCancel(p, p');
    AddCancel(q, q');
  }

  lemma DoubleIsTwo(w: bv8, delta: bv8)
    ensures Mul(Double(w), delta) == Double(Mul(w, delta))
    ensures Mul(3, Mul(w, delta)) == Add(Double(Mul(w, delta)), Mul(w, delta))
  {
    hide Add, Mul, Double;
    MulDoubleLeft(w, delta);
    ThreeIsSum();
    MulAddLeft(2, 1, Mul(w, delta));
    MulTwo(Mul(w, delta));
    MulOne(Mul(w, delta));
  }

  lemma OnlyZero(e: bv8)
    requires Double(e) == Add(Double(e), e)
    ensures e == 0
  {}

  /** Both bytes equal on the two disks. */
  lemma NotBothEqualled(x: nat, y: nat, p: bv8, p': bv8, q: bv8, q': bv8)
    requires Confused(x, y, p, p', q, q') && Equalled(x, y, p, q)
    ensures !Equalled(x, y, p', q')
  {
    hide Add, Exp, Mul, Double, Rest, Place, Sum4, Late;
    if Equalled(x, y, p', q') {
      var u, v := Exp(x), Exp(y);
      var w := Add(u, v);
      SumNonZero(x, y);
      FourProducts(u, v, p, p');
      DoubleIsTwo(w, Add(p, p'));
      OnlyZero(Mul(w, Add(p, p')));
      NoZeroDivisors(w, Add(p, p'));
      AddLaws(p, p');
    }
  }

  lemma FourProducts(u: bv8, v: bv8, p: bv8, p': bv8)
    ensures Sum4(Mul(u, p), Mul(u, p'), Mul(v, p), Mul(v, p')) == Mul(Add(u, v), Add(p, p'))
  {
    hide Add, Mul;
    MulAddRight(u, p, p');
    MulAddRight(v, p, p');
    MulAddLeft(u, v, Add(p, p'));
  }

  lemma Triple(e: bv8, e': bv8)
    requires Double(Add(e, e')) == Add(Double(e), e)
    ensures Double(e') == e
  {
    hide Add, Double;
    DoubleAdd(e, e');
    AddCancel(Double(e'), Double(e));
    AddCancel(e, Double(e));
  }

  /** The predecessor of a late byte is late, too. */
  lemma HalfIsLate(p: bv8, p': bv8)
    requires p != 0 && Double(p') == p && Late(p) <= 10
    ensures p' != 0 && Late(p') == Late(p) + 1
  {
    hide Double, LogOf;
    DoubleZero(p');
    LogDouble(p');
  }

  /** One byte equal on the two disks, and the other in no rest. */
  lemma NotOneEqualled(x: nat, y: nat, p: bv8, p': bv8, q: bv8, q': bv8)
    requires Confused(x, y, p, p', q, q') && Equalled(x, y, p, q)
    ensures !Balanced(x, y, p', q')
  {
    hide Add, Exp, Mul, Double, Rest, Sum4, LogOf;
    Cancelled(p, p', q, q');
    if Balanced(x, y, p', q') {
      var u, v := Exp(x), Exp(y);
      var w := Add(u, v);
      SumNonZero(x, y);
      ZeroSums(Mul(u, p), Mul(v, p));
      MulAddLeft(u, v, p);
      DoubleIsTwo(w, Add(p, p'));
      DoubleIsTwo(w, p);
      MulAddRight(w, p, p');
      Triple(Mul(w, p), Mul(w, p'));
      MulDoubleRight(w, p');
      MulCancel(w, Double(p'), p);
      HalfIsLate(p, p');
    }
  }

  lemma SwapConfused(x: nat, y: nat, p: bv8, p': bv8, q: bv8, q': bv8)
    requires Confused(x, y, p, p', q, q')
    ensures Confused(x, y, p', p, q', q) && Confused(x, y, p, p', q', q)
  {
    hide Mul, Exp, Rest, Place, Add;
    AddLaws(p, p');
    AddLaws(q, q');
    AddLaws(Rest(x + 1, p), Rest(x + 1, p'));
    AddLaws(Rest(y + 1, q), Rest(y + 1, q'));
  }

  /** The bytes of one disk are not paired with those of the other. */
  lemma NotAcross(x: nat, y: nat, p: bv8, p': bv8, q: bv8, q': bv8)
    requires Confused(x, y, p, p', q, q')
    ensures Place(x, y, p) != Place(y, x, q) || Place(x, y, p') != Place(y, x, q')
  {
    hide Confused, Place, Equalled, Balanced, Sum4, Rest, Exp, Mul, Add;
    if Place(x, y, p) == Place(y, x, q) && Place(x, y, p') == Place(y, x, q') {
      OrderOf(x, y, p, p', q, q');
      PlacesMeet(x, y, p, q);
      PlacesMeet(x, y, p', q');
      SwapConfused(x, y, p, p', q, q');
      if Equalled(x, y, p, q) {
        NotBothEqualled(x, y, p, p', q, q');
        NotOneEqualled(x, y, p, p', q, q');
      } else if Equalled(x, y, p', q') {
        NotOneEqualled(x, y, p', p, q', q);
      } else {
        BothBalanced(x, y, p, p', q, q');
        SomeRest(x, y, p, p', q, q');
      }
    }
  }

  lemma OrderOf(x: nat, y: nat, p: bv8, p': bv8, q: bv8, q': bv8)
    requires Confused(x, y, p, p', q, q')
    ensures x < y < 11 && p != p' && Add(p, p') == Add(q, q') && q != q'
    ensures Paired(Place(x, y, p), Place(x, y, p'), Place(y, x, q), Place(y, x, q'))
  {
    hide Add, Mul, Exp, Rest, Place, Sum4;
    AddLaws(p, p');
    AddLaws(q, q');
  }

  lemma BothBalanced(x: nat, y: nat, p: bv8, p': bv8, q: bv8, q': bv8)
    requires Balanced(x, y, p, q) && Balanced(x, y, p', q')
    ensures Sum4(Rest(x + 1, p), Rest(x + 1, p'), Rest(y + 1, q), Rest(y + 1, q')) == 0
  {
    hide Rest, Place;
    ZeroSums(0, 0);
  }

  /** Two bytes of the lower disk are never in the same place. */
  lemma LowerDisk(x: nat, y: nat, p: bv8, p': bv8)
    requires x < y < 11 && p != p' && Place(x, y, p) == Place(x, y, p')
    ensures Rest(x + 1, p) == 0 && Rest(x + 1, p') == 0
  {
    hide LogOf, Exp;
    if p != 0 && p' != 0 && Late(p) == Late(p') {
      SameLog(p, p');
    }
  }

  /** Two of the higher disk are only if one is in the rests and the other y - x below it. */
  lemma HigherDisk(x: nat, y: nat, q: bv8, q': bv8)
    requires x < y < 11 && q != q' && Place(y, x, q) == Place(y, x, q')
    ensures (Rest(y + 1, q) == 0 && Rest(y + 1, q') == 0) || Below(x, y, q, q') || Below(x, y, q', q)
  {
    hide LogOf, Exp;
    if q != 0 && q' != 0 && Late(q) == Late(q') {
      SameLog(q, q');
    }
  }

  predicate Below(x: nat, y: nat, q: bv8, q': bv8) {
    && x < y && q != 0 && q' != 0 && Late(q) <= y && Late(q') == Late(q) + y - x
    && Rest(y + 1, q) == Exp(y - Late(q)) && Rest(y + 1, q') == 0
  }

  lemma BelowExp(x: nat, y: nat, q: bv8, q': bv8)
    requires Below(x, y, q, q')
    ensures var m := 255 - Late(q'); Add(q, q') == Mul(Exp(m), Add(Exp(y - x), Exp(0)))
  {
    hide LogOf, Exp, Mul, Add, Rest;
    var m := 255 - Late(q');
    ExpLog(q);
    ExpLog(q');
    ExpAdd(m, y - x);
    ExpAdd(m, 0);
    MulAddRight(Exp(m), Exp(y - x), Exp(0));
  }

  /** 2^x times the difference, with m as above: 2^m w. */
  lemma BelowScaled(x: nat, y: nat, m: nat)
    requires x < y
    ensures Mul(Exp(x), Mul(Exp(m), Add(Exp(y - x), Exp(0)))) == Mul(Exp(m), Add(Exp(x), Exp(y)))
  {
    hide Exp, Mul, Add;
    Commute3(Exp(x), Exp(m), Add(Exp(y - x), Exp(0)));
    MulAddRight(Exp(x), Exp(y - x), Exp(0));
    ExpAdd(x, y - x);
    ExpAdd(x, 0);
    AddLaws(Exp(x), Exp(y));
  }

  lemma ThreeTimesExp(k: nat)
    ensures Mul(3, Exp(k)) == Add(Exp(k + 1), Exp(k))
  {
    hide Mul, Add, Double, Exp;
    ThreeIsSum();
    MulAddLeft(2, 1, Exp(k));
    MulTwo(Exp(k));
    MulOne(Exp(k));
    ExpStep(k);
  }

  /** w (2^(x+1) + 2^(y+1)) 2^m in powers of two. */
  lemma BelowSquare(x: nat, y: nat, m: nat)
    requires x < y < 11
    ensures Mul(Add(Exp(x + 1), Exp(y + 1)), Mul(Exp(m), Add(Exp(x), Exp(y))))
            == Add(Exp(2 * x + 1 + m), Exp(2 * y + 1 + m))
  {
    hide Mul, Add, Double, Exp;
    var u, v := Exp(x), Exp(y);
    var w := Add(u, v);
    SumNonZero(x, y);
    MulDoubleLeft(w, Mul(Exp(m), w));
    Commute3(w, Exp(m), w);
    SquareOfSum(u, v);
    ExpAdd(x, x);
    ExpAdd(y, y);
    MulAddRight(Exp(m), Exp(x + x), Exp(y + y));
    ExpAdd(m, x + x);
    ExpAdd(m, y + y);
    DoubleAdd(Exp(m + x + x), Exp(m + y + y));
    ExpStep(m + x + x);
    ExpStep(m + y + y);
  }

  /** The equation of row two would make 2x + 1 and 2y the same exponent. */
  lemma NotBelow(x: nat, y: nat, delta: bv8, q: bv8, q': bv8)
    requires x < y < 11 && Add(q, q') == delta && Below(x, y, q, q')
    ensures Mul(Add(Exp(x + 1), Exp(y + 1)), delta) != Mul(3, Rest(y + 1, q))
  {
    hide Mul, Add, Exp, LogOf;
    var i, m := Late(q), 255 - Late(q');
    var w := Add(Exp(x + 1), Exp(y + 1));
    BelowExp(x, y, q, q');
    BelowScaled(x, y, m);
    Commute3(Exp(x), w, delta);
    BelowSquare(x, y, m);
    Commute3(Exp(x), 3, Exp(y - i));
    ExpAdd(x, y - i);
    ThreeTimesExp(x + y - i);
    ExpEqual(2 * y + 1 + m, x + y - i + 1);
    CancelRight(Exp(2 * x + 1 + m), Exp(x + y - i), Exp(2 * y + 1 + m));
    ExpEqual(2 * x + 1 + m, x + y - i);
    MinusIsNot(x, y, i, m);
  }

  lemma CancelRight(a: bv8, b: bv8, c: bv8)
    ensures Add(a, c) == Add(c, b) ==> a == b
  {
    hide Add;
    AddCancel(a, c);
    AddCancel(b, c);
    AddLaws(a, c);
  }

  lemma MinusIsNot(x: nat, y: nat, i: nat, m: nat)
    requires x < y < 11 && i <= y && m == 255 - (i + y - x)
    ensures (2 * x + 1 + m) % 255 != (x + y - i) % 255
  {}

  /** Nor are the bytes of each disk paired among themselves. */
  lemma NotWithin(x: nat, y: nat, p: bv8, p': bv8, q: bv8, q': bv8)
    requires Confused(x, y, p, p', q, q')
    ensures Place(x, y, p) != Place(x, y, p') || Place(y, x, q) != Place(y, x, q')
  {
    hide Place, Exp, Mul, Add, Rest, Below;
    if Place(x, y, p) == Place(x, y, p') && Place(y, x, q) == Place(y, x, q') {
      OrderOf(x, y, p, p', q, q');
      LowerDisk(x, y, p, p');
      HigherDisk(x, y, q, q');
      SomeRest(x, y, p, p', q, q');
      ZeroSums(0, 0);
      OneRest(Rest(y + 1, q), Rest(y + 1, q'));
      AddLaws(q, q');
      if Below(x, y, q, q') {
        BelowRest(x, y, q, q');
        NotBelow(x, y, Add(p, p'), q, q');
      } else if Below(x, y, q', q) {
        BelowRest(x, y, q', q);
        NotBelow(x, y, Add(p, p'), q', q);
      }
    }
  }

  lemma OneRest(a: bv8, b: bv8)
    ensures Sum4(0, 0, a, b) == Add(a, b)
    ensures Add(a, 0) == a && Add(0, b) == b
  {}

  lemma BelowRest(x: nat, y: nat, q: bv8, q': bv8)
    requires Below(x, y, q, q')
    ensures Rest(y + 1, q') == 0
  {}

  lemma NeverConfused(x: nat, y: nat, p: bv8, p': bv8, q: bv8, q': bv8)
    ensures !Confused(x, y, p, p', q, q')
  {
    hide Confused, Place, Exp, Mul, Add, Rest;
    if Confused(x, y, p, p', q, q') {
      OrderOf(x, y, p, p', q, q');
      SwapConfused(x, y, p, p', q, q');
      NotWithin(x, y, p, p', q, q');
      NotAcross(x, y, p, p', q, q');
      NotAcross(x, y, p, p', q', q);
    }
  }

  // ----- Two lost disks -----

  ghost predicate SameWritten(a: seq<bv8>, b: seq<bv8>, stray: nat)
    requires stray < 256
  {
    forall r :: IsRow(r) ==> WrittenSymbol(r, a, stray) == WrittenSymbol(r, b, stray)
  }

  lemma RowsOfWritten(a: seq<bv8>, b: seq<bv8>, stray: nat)
    requires stray < 256 && SameWritten(a, b, stray)
    ensures WrittenSymbol(1, a, stray) == WrittenSymbol(1, b, stray) &&
            WrittenSymbol(2, a, stray) == WrittenSymbol(2, b, stray)
    ensures WrittenSymbol(4, a, stray) == WrittenSymbol(4, b, stray)
  {
    hide WrittenSymbol;
    assert IsRow(1) && IsRow(2) && IsRow(4);
  }

  /** One lost disk is determined by row one, for any number of disks. */
  lemma OneWrittenLost(a: seq<bv8>, b: seq<bv8>, x: nat, stray: nat)
    requires stray < 256 && No255(a) && No255(b) && x < |a| && AgreeOutside(a, b, {x})
    requires WrittenSymbol(1, a, stray) == WrittenSymbol(1, b, stray)
    ensures a == b
  {
    hide Parity, WrittenSymbol, PowerSum;
    RowOneIsParity(a, stray);
    RowOneIsParity(b, stray);
    OneDataAndQLost(a, b, x);
  }

  lemma TwoDistinctWritten(a: seq<bv8>, b: seq<bv8>, x: nat, y: nat, stray: nat)
    requires stray < 256 && |a| <= 11 && No255(a) && No255(b) && x < y < |a| && AgreeOutside(a, b, {x, y}) &&
             a[x] != b[x]
    requires WrittenSymbol(1, a, stray) == WrittenSymbol(1, b, stray) &&
             WrittenSymbol(2, a, stray) == WrittenSymbol(2, b, stray)
    ensures WrittenSymbol(4, a, stray) != WrittenSymbol(4, b, stray)
  {
    hide WrittenSymbol, Share, Exp, Mul, Rest, Add, Confused;
    if WrittenSymbol(4, a, stray) == WrittenSymbol(4, b, stray) {
      var p, p', q, q' := a[x], b[x], a[y], b[y];
      TwoShares(1, a, b, x, y, stray);
      TwoShares(2, a, b, x, y, stray);
      TwoShares(4, a, b, x, y, stray);
      SharesOfByte(x, p, stray);
      SharesOfByte(x, p', stray);
      SharesOfByte(y, q, stray);
      SharesOfByte(y, q', stray);
      AddLaws(Add(p, p'), Add(q, q'));
      ConfusedByRows(x, y, p, p', q, q');
      NeverConfused(x, y, p, p', q, q');
    }
  }

  lemma SharesOfByte(d: nat, v: bv8, stray: nat)
    requires d < 11 && v != 255 && stray < 256
    ensures Share(1, d, v, stray) == v
    ensures Share(2, d, v, stray) == Add(Mul(Exp(d + 1), v), Mul(3, Rest(d + 1, v)))
    ensures Share(4, d, v, stray) == Add(Mul(Exp(2 * d + 2), v), Mul(3, Rest(2 * d + 2, v)))
  {
    hide Share, Exp, Mul, Rest, Add;
    ShareOne(d, v, stray);
    ShareTwo(d, v, stray);
    ShareFour(d, v, stray);
  }

  lemma TwoByTriple(a: seq<bv8>, b: seq<bv8>, x: nat, y: nat, stray: nat)
    requires stray < 256 && |a| <= 11 && No255(a) && No255(b) && x < |a| && y < |a| && AgreeOutside(a, b, {x, y})
    requires WrittenSymbol(1, a, stray) == WrittenSymbol(1, b, stray) &&
             WrittenSymbol(2, a, stray) == WrittenSymbol(2, b, stray)
    requires WrittenSymbol(4, a, stray) == WrittenSymbol(4, b, stray)
    ensures a == b
  {
    hide WrittenSymbol;
    if x == y || a[x] == b[x] {
      OneWrittenLost(a, b, y, stray);
    } else if a[y] == b[y] {
      OneWrittenLost(a, b, x, stray);
    } else if x < y {
      TwoDistinctWritten(a, b, x, y, stray);
    } else {
      TwoDistinctWritten(a, b, y, x, stray);
    }
  }

  /** The written symbols determine any two lost disks of up to eleven, whatever byte lies behind the table.  This takes
      in every column for which the encoder stays inside its tables. */
  lemma TwoWrittenLost(a: seq<bv8>, b: seq<bv8>, x: nat, y: nat, stray: nat)
    requires stray < 256 && |a| <= 11 && No255(a) && No255(b) && x < |a| && y < |a| && AgreeOutside(a, b, {x, y})
    requires SameWritten(a, b, stray)
    ensures a == b
  {
    hide WrittenSymbol, SameWritten;
    RowsOfWritten(a, b, stray);
    TwoByTriple(a, b, x, y, stray);
  }

  /** So whenever the encoder reads nothing outside its tables, its symbols determine two lost disks. */
  lemma TwoLostInTables(a: seq<bv8>, b: seq<bv8>, x: nat, y: nat, stray: nat)
    requires stray < 256 && ColumnInTable(a, stray) && ColumnInTable(b, stray)
    requires x < |a| && y < |a| && AgreeOutside(a, b, {x, y}) && SameWritten(a, b, stray)
    ensures a == b
  {
    hide WrittenSymbol, SameWritten, ColumnInTable;
    ColumnInTableExactly(a, stray);
    ColumnInTableExactly(b, stray);
    TwoWrittenLost(a, b, x, y, stray);
  }

  // ----- Symbols of sparse columns -----

  /** The exponent of the table product of two powers. */
  function Wrapped(k: nat, l: nat): (e: Exponent) {
    (if k + l <= 255 then k + l else k + l - 1) % 255
  }

  lemma PowersProduct(k: Exponent, l: Exponent, stray: nat)
    requires k != 175 && l != 175 && stray < 256
    ensures TableProduct(Exp(k), Exp(l), stray) == GfIlog(Wrapped(k, l))
  {
    hide TableProduct, Exp, Mul, LogOf, GfIlog, Halve;
    PowerBelow255(k);
    PowerBelow255(l);
    LogExp(k);
    LogExp(l);
    TableProductMeaning(Exp(k), Exp(l), stray);
    MulByLogs(Exp(k), Exp(l));
    if k + l > 255 {
      ExpPredecessor(k + l);
    }
    ExpMod(if k + l <= 255 then k + l else k + l - 1);
    GfIlogIsExp(Wrapped(k, l));
  }

  /** What the byte 2^l on disk d contributes, the matrix entry being 2^k. */
  lemma ShareOfPower(r: bv8, d: nat, k: Exponent, l: Exponent, stray: nat)
    requires stray < 256 && Coefficient(r, d, stray) == Exp(k) && k != 175 && l != 175
    ensures Share(r, d, GfIlog(l), stray) == GfIlog(Wrapped(k, l))
  {
    hide TableProduct, Exp, GfIlog, Coefficient;
    GfIlogIsExp(l);
    PowersProduct(k, l, stray);
  }

  lemma WrittenTwoTerms(r: bv8, c: seq<bv8>, x: nat, y: nat, stray: nat)
    requires stray < 256 && x < |c| && y < |c| && x != y && forall z :: 0 <= z < |c| && z != x && z != y ==> c[z] == 0
    ensures WrittenSymbol(r, c, stray) == Add(Share(r, x, c[x], stray), Share(r, y, c[y], stray))
  {
    hide Add, Share, WrittenSymbol;
    WrittenPeel(r, c, y, stray);
    WrittenPeel(r, c[y := 0], x, stray);
    WrittenZeros(r, c[y := 0][x := 0], stray);
    AddLaws(Share(r, x, c[x], stray), 0);
  }

  lemma WrittenThreeTerms(r: bv8, c: seq<bv8>, stray: nat)
    requires stray < 256 && |c| >= 3 && forall z :: 3 <= z < |c| ==> c[z] == 0
    ensures WrittenSymbol(r, c, stray)
         == Add(Add(Share(r, 0, c[0], stray), Share(r, 1, c[1], stray)), Share(r, 2, c[2], stray))
  {
    hide Add, Share, WrittenSymbol;
    WrittenPeel(r, c, 2, stray);
    WrittenTwoTerms(r, c[2 := 0], 0, 1, stray);
  }

  // ----- Three lost disks -----

  /** The bytes 2^k, 2^l and 2^m on the first three disks. */
  function Head(n: nat, k: Exponent, l: Exponent, m: Exponent): (s: seq<bv8>)
    requires n >= 3
    ensures |s| == n
  {
    Zeros(n)[0 := GfIlog(k)][1 := GfIlog(l)][2 := GfIlog(m)]
  }

  lemma HeadSymbol(r: bv8, n: nat, k: Exponent, l: Exponent, m: Exponent, stray: nat)
    requires IsRow(r) && n >= 3 && stray < 256 && k != 175 && l != 175 && m != 175
    ensures WrittenSymbol(r, Head(n, k, l, m), stray)
         == Add(Add(GfIlog(Wrapped(RowLog(r), k)), GfIlog(Wrapped(RowLog(r) * 2, l))),
             GfIlog(Wrapped(RowLog(r) * 3, m)))
  {
    hide Add, Share, WrittenSymbol, GfIlog, Exp, Coefficient, Wrapped;
    WrittenThreeTerms(r, Head(n, k, l, m), stray);
    CoefficientIsPower(r, 0, stray);
    CoefficientIsPower(r, 1, stray);
    CoefficientIsPower(r, 2, stray);
    ShareOfPower(r, 0, RowLog(r), k, stray);
    ShareOfPower(r, 1, RowLog(r) * 2, l, stray);
    ShareOfPower(r, 2, RowLog(r) * 3, m, stray);
  }

  lemma HeadEntries()
    ensures GFILOG_0[0] == 1 && GFILOG_0[9] == 58 && GFILOG_0[14] == 19 && GFILOG_1[7] == 201 && GFILOG_3[4] == 20
    ensures GFILOG_3[7] == 160 && GFILOG_3[10] == 105 && GFILOG_5[7] == 127 && GFILOG_5[9] == 225 && GFILOG_5[11] == 163
    ensures GFILOG_7[15] == 204 && GFILOG_8[9] == 158 && GFILOG_11[10] == 110 && GFILOG_11[11] == 220 &&
            GFILOG_11[12] == 165
    ensures GFILOG_12[3] == 100 && GFILOG_12[6] == 7 && GFILOG_12[9] == 56 && GFILOG_13[3] == 178 && GFILOG_13[7] == 239
    ensures GFILOG_13[9] == 155 && GFILOG_13[11] == 86 && GFILOG_15[14] == 142
  {}

  lemma HeadValues()
    ensures GfIlog(186) == 110 && GfIlog(87) == 127 && GfIlog(52) == 20
    ensures GfIlog(254) == 142 && GfIlog(215) == 239 && GfIlog(195) == 100 && GfIlog(0) == 1
    ensures GfIlog(187) == 220 && GfIlog(89) == 225 && GfIlog(55) == 160 && GfIlog(217) == 155 && GfIlog(198) == 7
    ensures GfIlog(211) == 178 && GfIlog(137) == 158 && GfIlog(127) == 204 && GfIlog(23) == 201 && GfIlog(9) == 58 &&
            GfIlog(14) == 19
    ensures GfIlog(188) == 165 && GfIlog(91) == 163 && GfIlog(58) == 105 && GfIlog(219) == 86 && GfIlog(201) == 56
  {
    hide GfIlog, AntilogRow;
    AntilogRows();
    HeadEntries();
    AntilogEntry(0, 0);
    AntilogEntry(0, 9);
    AntilogEntry(0, 14);
    AntilogEntry(1, 7);
    AntilogEntry(3, 4);
    AntilogEntry(3, 7);
    AntilogEntry(3, 10);
    AntilogEntry(5, 7);
    AntilogEntry(5, 9);
    AntilogEntry(5, 11);
    AntilogEntry(7, 15);
    AntilogEntry(8, 9);
    AntilogEntry(11, 10);
    AntilogEntry(11, 11);
    AntilogEntry(11, 12);
    AntilogEntry(12, 3);
    AntilogEntry(12, 6);
    AntilogEntry(12, 9);
    AntilogEntry(13, 3);
    AntilogEntry(13, 7);
    AntilogEntry(13, 9);
    AntilogEntry(13, 11);
    AntilogEntry(15, 14);
  }

  lemma HeadSums()
    ensures Add(Add(110, 127), 20) == 5 == Add(Add(142, 239), 100)
    ensures Add(Add(220, 225), 160) == 157 == Add(Add(1, 155), 7)
    ensures Add(Add(178, 158), 204) == 224 == Add(Add(201, 58), 19)
    ensures Add(Add(165, 163), 105) == 111 == Add(Add(1, 86), 56)
  {}

  /** The bytes 110, 127, 20 and 142, 239, 100 have the same four symbols. */
  lemma HeadsCollide(n: nat, stray: nat)
    requires n >= 3 && stray < 256
    ensures SameWritten(Head(n, 186, 87, 52), Head(n, 254, 215, 195), stray)
    ensures No255(Head(n, 186, 87, 52)) && No255(Head(n, 254, 215, 195))
    ensures AgreeOutside(Head(n, 186, 87, 52), Head(n, 254, 215, 195), {0, 1, 2})
    ensures Head(n, 186, 87, 52)[0] != Head(n, 254, 215, 195)[0]
  {
    hide Add, WrittenSymbol, GfIlog;
    HeadValues();
    HeadSums();
    forall r | IsRow(r)
      ensures WrittenSymbol(r, Head(n, 186, 87, 52), stray) == WrittenSymbol(r, Head(n, 254, 215, 195), stray)
    {
      HeadSymbol(r, n, 186, 87, 52, stray);
      HeadSymbol(r, n, 254, 215, 195, stray);
    }
  }

  // ----- Exactly how many lost disks -----

  /** Rows one and two, as written, tell apart columns of n bytes that differ on two disks at most. */
  ghost predicate WrittenPairCorrectsTwo(n: nat) {
    forall a, b, x: nat, y: nat, stray: nat
      | |a| == n && x < n && y < n && stray < 256 && AgreeOutside(a, b, {x, y}) && No255(a) && No255(b)
        && WrittenSymbol(1, a, stray) == WrittenSymbol(1, b, stray) &&
            WrittenSymbol(2, a, stray) == WrittenSymbol(2, b, stray) ::
      a == b
  }

  /** All four symbols, as written, tell apart columns that differ on two, three, four disks at most. */
  ghost predicate WrittenCorrectsTwo(n: nat) {
    forall a, b, x: nat, y: nat, stray: nat
      | |a| == n && x < n && y < n && stray < 256 && AgreeOutside(a, b, {x, y}) && No255(a) && No255(b) &&
          SameWritten(a, b, stray) ::
      a == b
  }

  ghost predicate WrittenCorrectsThree(n: nat) {
    forall a, b, x: nat, y: nat, w: nat, stray: nat
      | |a| == n && x < n && y < n && w < n && stray < 256 && AgreeOutside(a, b, {x, y, w}) && No255(a) && No255(b)
        && SameWritten(a, b, stray) ::
      a == b
  }

  ghost predicate WrittenCorrectsFour(n: nat) {
    forall a, b, x: nat, y: nat, w: nat, v: nat, stray: nat
      | |a| == n && x < n && y < n && w < n && v < n && stray < 256 && AgreeOutside(a, b, {x, y, w, v}) && No255(a) &&
          No255(b)
        && SameWritten(a, b, stray) ::
      a == b
  }

  /** With at most two data disks, whatever is lost is determined. */
  lemma AllLost(a: seq<bv8>, b: seq<bv8>, stray: nat)
    requires stray < 256 && 1 <= |a| <= 2 && |a| == |b| && No255(a) && No255(b) && SameWritten(a, b, stray)
    ensures a == b
  {
    hide SameWritten;
    TwoWrittenLost(a, b, 0, |a| - 1, stray);
  }

  /** Three lost disks are recovered from the symbols that are written exactly when there are at most two. */
  lemma WrittenCorrectsThreeExactly(n: nat)
    ensures WrittenCorrectsThree(n) <==> n <= 2
  {
    hide SameWritten, No255, Head;
    if n <= 2 {
      forall a, b, x: nat, y: nat, w: nat, stray: nat
        | |a| == n && x < n && y < n && w < n && stray < 256 && AgreeOutside(a, b, {x, y, w}) && No255(a) && No255(b)
          && SameWritten(a, b, stray)
        ensures a == b
      {
        AllLost(a, b, stray);
      }
    } else {
      HeadsCollide(n, 0);
    }
  }

  /** Likewise four. */
  lemma WrittenCorrectsFourExactly(n: nat)
    ensures WrittenCorrectsFour(n) <==> n <= 2
  {
    hide SameWritten, No255, Head;
    if n <= 2 {
      forall a, b, x: nat, y: nat, w: nat, v: nat, stray: nat
        | |a| == n && x < n && y < n && w < n && v < n && stray < 256 && AgreeOutside(a, b, {x, y, w, v}) &&
            No255(a) && No255(b)
          && SameWritten(a, b, stray)
        ensures a == b
      {
        AllLost(a, b, stray);
      }
    } else {
      HeadsCollide(n, 0);
      var a, b := Head(n, 186, 87, 52), Head(n, 254, 215, 195);
      assert AgreeOutside(a, b, {0, 1, 2, 2});
    }
  }

  /** The byte 142 on the first two disks. */
  function Twins(n: nat): (s: seq<bv8>)
    requires n >= 2
    ensures |s| == n
  {
    Zeros(n)[0 := GfIlog(254)][1 := GfIlog(254)]
  }

  lemma TwinsVanish(n: nat)
    requires n >= 2
    ensures WrittenSymbol(1, Twins(n), 0) == 0 == WrittenSymbol(2, Twins(n), 0)
    ensures WrittenSymbol(1, Zeros(n), 0) == 0 == WrittenSymbol(2, Zeros(n), 0)
    ensures No255(Twins(n)) && No255(Zeros(n)) && Twins(n)[0] != Zeros(n)[0] && AgreeOutside(Twins(n), Zeros(n), {0, 1})
  {
    hide Add, WrittenSymbol, GfIlog, Share, Coefficient, Exp;
    HeadValues();
    WrittenZeros(1, Zeros(n), 0);
    WrittenZeros(2, Zeros(n), 0);
    WrittenTwoTerms(1, Twins(n), 0, 1, 0);
    WrittenTwoTerms(2, Twins(n), 0, 1, 0);
    CoefficientIsPower(1, 0, 0);
    CoefficientIsPower(1, 1, 0);
    CoefficientIsPower(2, 0, 0);
    CoefficientIsPower(2, 1, 0);
    ShareOfPower(1, 0, 0, 254, 0);
    ShareOfPower(1, 1, 0, 254, 0);
    ShareOfPower(2, 0, 1, 254, 0);
    ShareOfPower(2, 1, 2, 254, 0);
    AddLaws(142, 142);
    AddLaws(1, 1);
  }

  /** The first two symbols alone, the would-be P and 2Q, recover two lost disks only of one. */
  lemma WrittenPairCorrectsTwoExactly(n: nat)
    ensures WrittenPairCorrectsTwo(n) <==> n <= 1
  {
    hide WrittenSymbol, No255, Twins;
    if n <= 1 {
      forall a, b, x: nat, y: nat, stray: nat
        | |a| == n && x < n && y < n && stray < 256 && AgreeOutside(a, b, {x, y}) && No255(a) && No255(b)
          && WrittenSymbol(1, a, stray) == WrittenSymbol(1, b, stray) &&
              WrittenSymbol(2, a, stray) == WrittenSymbol(2, b, stray)
        ensures a == b
      {
        OneWrittenLost(a, b, 0, stray);
      }
    } else {
      TwinsVanish(n);
    }
  }

  // ----- Two lost disks among many -----

  /** Rows one, two and four as written, without the one whose matrix entries reach 255 at the seventh disk. */
  ghost predicate WrittenTripleCorrectsTwo(n: nat) {
    forall a, b, x: nat, y: nat, stray: nat
      | |a| == n && x < n && y < n && stray < 256 && AgreeOutside(a, b, {x, y}) && No255(a) && No255(b) &&
          SameTriple(a, b, stray) ::
      a == b
  }

  ghost predicate SameTriple(a: seq<bv8>, b: seq<bv8>, stray: nat)
    requires stray < 256
  {
    forall r :: r == 1 || r == 2 || r == 4 ==> WrittenSymbol(r, a, stray) == WrittenSymbol(r, b, stray)
  }

  /** The bytes 2^k and 2^l on disks 10 and 11. */
  function Near(n: nat, k: Exponent, l: Exponent): (s: seq<bv8>)
    requires n >= 12
    ensures |s| == n
  {
    Zeros(n)[10 := GfIlog(k)][11 := GfIlog(l)]
  }

  lemma NearSymbol(r: bv8, n: nat, k: Exponent, l: Exponent)
    requires (r == 1 || r == 2 || r == 4) && n >= 12 && k != 175 && l != 175
    ensures WrittenSymbol(r, Near(n, k, l), 0)
         == Add(GfIlog(Wrapped(RowLog(r) * 11, k)), GfIlog(Wrapped(RowLog(r) * 12, l)))
  {
    hide Add, WrittenSymbol, GfIlog, Share, Coefficient, Exp, Wrapped;
    WrittenTwoTerms(r, Near(n, k, l), 10, 11, 0);
    CoefficientIsPower(r, 10, 0);
    CoefficientIsPower(r, 11, 0);
    ShareOfPower(r, 10, RowLog(r) * 11, k, 0);
    ShareOfPower(r, 11, RowLog(r) * 12, l, 0);
  }

  lemma NearEntries()
    ensures GFILOG_0[0] == 1 && GFILOG_0[9] == 58 && GFILOG_0[10] == 116 && GFILOG_1[4] == 180 && GFILOG_1[7] == 201
    ensures GFILOG_2[2] == 78 && GFILOG_2[13] == 193 && GFILOG_14[8] == 247 && GFILOG_15[2] == 176 &&
            GFILOG_15[4] == 250
    ensures GFILOG_15[14] == 142
  {}

  lemma NearValues()
    ensures GfIlog(0) == 1 && GfIlog(9) == 58 && GfIlog(10) == 116 && GfIlog(20) == 180 && GfIlog(23) == 201
    ensures GfIlog(34) == 78 && GfIlog(45) == 193 && GfIlog(232) == 247 && GfIlog(242) == 176 && GfIlog(244) == 250
    ensures GfIlog(254) == 142
  {
    hide GfIlog, AntilogRow;
    AntilogRows();
    NearEntries();
    AntilogEntry(0, 0);
    AntilogEntry(0, 9);
    AntilogEntry(0, 10);
    AntilogEntry(1, 4);
    AntilogEntry(1, 7);
    AntilogEntry(2, 2);
    AntilogEntry(2, 13);
    AntilogEntry(14, 8);
    AntilogEntry(15, 2);
    AntilogEntry(15, 4);
    AntilogEntry(15, 14);
  }

  lemma NearSums()
    ensures Add(142, 176) == Add(201, 247)
    ensures Add(58, 142) == Add(78, 250)
    ensures Add(180, 116) == Add(193, 1)
  {}

  /** From twelve data disks on, disks 10 and 11 holding 142, 176 and 201, 247 are confused. */
  lemma NearCollide(n: nat)
    requires n >= 12
    ensures SameTriple(Near(n, 254, 242), Near(n, 23, 232), 0)
    ensures No255(Near(n, 254, 242)) && No255(Near(n, 23, 232))
    ensures AgreeOutside(Near(n, 254, 242), Near(n, 23, 232), {10, 11})
    ensures Near(n, 254, 242)[10] != Near(n, 23, 232)[10]
  {
    hide Add, WrittenSymbol, GfIlog;
    NearValues();
    NearSums();
    forall r | r == 1 || r == 2 || r == 4
      ensures WrittenSymbol(r, Near(n, 254, 242), 0) == WrittenSymbol(r, Near(n, 23, 232), 0)
    {
      NearSymbol(r, n, 254, 242);
      NearSymbol(r, n, 23, 232);
    }
  }

  /** These three recover two lost disks exactly when there are at most eleven. */
  lemma WrittenTripleCorrectsTwoExactly(n: nat)
    ensures WrittenTripleCorrectsTwo(n) <==> n <= 11
  {
    hide WrittenSymbol, No255, Near;
    if n <= 11 {
      forall a, b, x: nat, y: nat, stray: nat
        | |a| == n && x < n && y < n && stray < 256 && AgreeOutside(a, b, {x, y}) && No255(a) && No255(b) &&
            SameTriple(a, b, stray)
        ensures a == b
      {
        TwoByTriple(a, b, x, y, stray);
      }
    } else {
      NearCollide(n);
    }
  }

  lemma NextOfThree(d: nat, k: Exponent)
    requires Coefficient(3, d, 50) == Exp(k) && k + 25 <= 254 && k != 175
    ensures Coefficient(3, d + 1, 50) == Exp(k + 25)
  {
    hide TableProduct, Exp, GfIlog;
    RowLogIsLog(3);
    PowersProduct(k, 25, 50);
    GfIlogIsExp(k + 25);
  }

  /** At the entry 255 the byte behind the table, here 50, counts as its logarithm. */
  lemma WrapOfThree(d: nat)
    requires Coefficient(3, d, 50) == Exp(175)
    ensures Coefficient(3, d + 1, 50) == Exp(75)
  {
    hide Exp, GfIlog, GfLog;
    PowerBelow255(175);
    LiteralLogs();
    GfIlogIsExp(75);
    Stray255();
  }

  lemma Stray255()
    ensures TableProduct(255, 3, 50) == GfIlog(75)
  {
    hide GfLog, GfIlog;
    LiteralLogs();
  }

  lemma RoundOfThree(d: nat)
    requires Coefficient(3, d, 50) == Exp(175)
    ensures Coefficient(3, d + 4, 50) == Exp(150) && Coefficient(3, d + 5, 50) == Exp(175)
  {
    hide Exp, Coefficient;
    WrapOfThree(d);
    NextOfThree(d + 1, 75);
    NextOfThree(d + 2, 100);
    NextOfThree(d + 3, 125);
    NextOfThree(d + 4, 150);
  }

  /** With the byte 50 behind the table the matrix entries of row three repeat: those of disks 15 and 20 are equal. */
  lemma EntriesOfThree()
    ensures Coefficient(3, 15, 50) == Exp(150) == Coefficient(3, 20, 50)
  {
    hide Exp, Coefficient;
    CoefficientIsPower(3, 6, 50);
    RoundOfThree(6);
    RoundOfThree(11);
    RoundOfThree(16);
  }

  /** The bytes 2^k and 2^l on disks 15 and 20. */
  function Far(n: nat, k: Exponent, l: Exponent): (s: seq<bv8>)
    requires n >= 21
    ensures |s| == n
  {
    Zeros(n)[15 := GfIlog(k)][20 := GfIlog(l)]
  }

  function FarLog(r: bv8, d: nat): (k: nat) {
    if r == 3 then 150 else RowLog(r) * (d + 1)
  }

  lemma FarSymbol(r: bv8, n: nat, k: Exponent, l: Exponent)
    requires IsRow(r) && n >= 21 && k != 175 && l != 175
    ensures WrittenSymbol(r, Far(n, k, l), 50) == Add(GfIlog(Wrapped(FarLog(r, 15), k)),
            GfIlog(Wrapped(FarLog(r, 20), l)))
  {
    hide Add, WrittenSymbol, GfIlog, Share, Coefficient, Exp, Wrapped;
    WrittenTwoTerms(r, Far(n, k, l), 15, 20, 50);
    if r == 3 {
      EntriesOfThree();
    } else {
      CoefficientIsPower(r, 15, 50);
      CoefficientIsPower(r, 20, 50);
    }
    ShareOfPower(r, 15, FarLog(r, 15), k, 50);
    ShareOfPower(r, 20, FarLog(r, 20), l, 50);
  }

  lemma FarEntries()
    ensures GFILOG_0[0] == 1 && GFILOG_0[15] == 38 && GFILOG_1[1] == 152 && GFILOG_2[1] == 39 && GFILOG_2[6] == 148
    ensures GFILOG_6[12] == 208 && GFILOG_8[5] == 109 && GFILOG_8[11] == 66 && GFILOG_9[2] == 154 && GFILOG_9[11] == 114
    ensures GFILOG_10[11] == 179 && GFILOG_13[6] == 249 && GFILOG_14[11] == 235 && GFILOG_14[15] == 22 &&
            GFILOG_15[12] == 173
  {}

  lemma FarValues()
    ensures GfIlog(239) == 22 && GfIlog(139) == 66 && GfIlog(252) == 173 && GfIlog(214) == 249
    ensures GfIlog(0) == 1 && GfIlog(155) == 114 && GfIlog(17) == 152 && GfIlog(235) == 235
    ensures GfIlog(133) == 109 && GfIlog(33) == 39 && GfIlog(146) == 154 && GfIlog(108) == 208
    ensures GfIlog(15) == 38 && GfIlog(171) == 179 && GfIlog(38) == 148
  {
    hide GfIlog, AntilogRow;
    AntilogRows();
    FarEntries();
    AntilogEntry(0, 0);
    AntilogEntry(0, 15);
    AntilogEntry(1, 1);
    AntilogEntry(2, 1);
    AntilogEntry(2, 6);
    AntilogEntry(6, 12);
    AntilogEntry(8, 5);
    AntilogEntry(8, 11);
    AntilogEntry(9, 2);
    AntilogEntry(9, 11);
    AntilogEntry(10, 11);
    AntilogEntry(13, 6);
    AntilogEntry(14, 11);
    AntilogEntry(14, 15);
    AntilogEntry(15, 12);
  }

  lemma FarSums()
    ensures Add(22, 173) == Add(66, 249) && Add(1, 152) == Add(114, 235)
    ensures Add(109, 154) == Add(39, 208) && Add(38, 148) == Add(179, 1)
  {}

  /** From 21 data disks on, what lies behind the table can confuse two lost disks: with the byte 50 there, disks 15
      and 20 holding 22, 173 and 66, 249. */
  lemma TwoWrittenLostFails(n: nat)
    requires n >= 21
    ensures !WrittenCorrectsTwo(n)
  {
    hide Add, WrittenSymbol, GfIlog;
    FarValues();
    FarSums();
    var a, b := Far(n, 239, 252), Far(n, 139, 214);
    forall r | IsRow(r)
      ensures WrittenSymbol(r, a, 50) == WrittenSymbol(r, b, 50)
    {
      FarSymbol(r, n, 239, 252);
      FarSymbol(r, n, 139, 214);
    }
    assert AgreeOutside(a, b, {15, 20}) && a[15] != b[15];
    assert No255(a) && No255(b) && SameWritten(a, b, 50);
  }

  /** All four written symbols recover two lost disks up to eleven, and not from 21 on. */
  lemma WrittenCorrectsTwoBounds(n: nat)
    ensures n <= 11 ==> WrittenCorrectsTwo(n)
    ensures WrittenCorrectsTwo(n) ==> n <= 20
  {
    hide SameWritten, No255;
    if n <= 11 {
      forall a, b, x: nat, y: nat, stray: nat
        | |a| == n && x < n && y < n && stray < 256 && AgreeOutside(a, b, {x, y}) && No255(a) && No255(b) &&
            SameWritten(a, b, stray)
        ensures a == b
      {
        TwoWrittenLost(a, b, x, y, stray);
      }
    } else if n >= 21 {
      TwoWrittenLostFails(n);
    }
  }

  // ----- The byte 255 -----

  lemma ExpIsNot255(s: nat)
    requires s < 255 && s != 175
    ensures Exp(s) != 0 && Exp(s) != 255 && ReadLog(Exp(s) as nat, s) == s
  {
    hide Exp, LogOf, GfLog, ReadLog;
    ExpNonZero(s);
    PowerBelow255(s);
    LogExp(s);
    ReadLogIsLog(Exp(s), s);
  }

  /** With the byte s behind the table, 255 is taken for 2^s in every product. */
  lemma ProductOf255(a: bv8, s: nat)
    requires s < 255 && s != 175
    ensures TableProduct(a, 255, s) == TableProduct(a, Exp(s), s)
  {
    hide Exp, GfLog, GfIlog, ReadLog;
    ExpIsNot255(s);
    StrayLog(s);
  }

  lemma StrayLog(s: nat)
    requires s < 256
    ensures ReadLog((255 as bv8) as nat, s) == s
  {
    hide GfLog;
    TopByte(255);
  }

  /** 2^s, or 255, on disk x, and zeros. */
  function Single(n: nat, x: nat, v: bv8): (column: seq<bv8>)
    requires x < n
    ensures |column| == n
  {
    Zeros(n)[x := v]
  }

  /** So not even one lost disk is determined, once it may hold the byte 255. */
  lemma SinglesCollide(n: nat, x: nat, s: nat)
    requires x < n && s < 255 && s != 175
    ensures SameWritten(Single(n, x, 255), Single(n, x, Exp(s)), s)
    ensures AgreeOutside(Single(n, x, 255), Single(n, x, Exp(s)), {x}) &&
            Single(n, x, 255)[x] != Single(n, x, Exp(s))[x]
  {
    hide Exp, TableProduct, Coefficient, WrittenSymbol, ReadLog;
    ExpIsNot255(s);
    forall r | IsRow(r)
      ensures WrittenSymbol(r, Single(n, x, 255), s) == WrittenSymbol(r, Single(n, x, Exp(s)), s)
    {
      WrittenSingle(r, Single(n, x, 255), x, s);
      WrittenSingle(r, Single(n, x, Exp(s)), x, s);
      ProductOf255(Coefficient(r, x, s), s);
    }
  }

  lemma WrittenSingle(r: bv8, c: seq<bv8>, x: nat, stray: nat)
    requires stray < 256 && x < |c| && forall z :: 0 <= z < |c| && z != x ==> c[z] == 0
    ensures WrittenSymbol(r, c, stray) == TableProduct(Coefficient(r, x, stray), c[x], stray)
  {
    hide TableProduct, Coefficient, WrittenSymbol, Add;
    WrittenPeel(r, c, x, stray);
    WrittenZeros(r, c[x := 0], stray);
    AddLaws(Share(r, x, c[x], stray), 0);
  }

  /** An input on which the byte behind the table shows: the byte 1 on the eighth disk has 3 in row three if that byte
      is 0. */
  lemma EighthSymbol()
    ensures WrittenSymbol(3, Single(8, 7, 1), 0) == 3
  {
    hide TableProduct, Coefficient, WrittenSymbol, LogOf, Exp;
    WrittenSingle(3, Single(8, 7, 1), 7, 0);
    EighthEntry();
    TableProductAlways(3, 1, 0);
    LogOne();
    RowLogRead(3, 0);
    RowLogIsLog(3);
    RowLogRead(1, 0);
  }

  /** With the byte s behind the table, the four symbols tell apart any columns that differ on one disk. */
  ghost predicate WrittenCorrectsOne(n: nat, s: nat)
    requires s < 256
  {
    forall a, b, x: nat | |a| == n && x < n && AgreeOutside(a, b, {x}) && SameWritten(a, b, s) :: a == b
  }

  /** If 175 lies there, the missing logarithm, row one is the parity of all columns. */
  lemma ProductByOne(v: bv8)
    ensures TableProduct(1, v, 175) == v
  {
    hide LogOf, Exp, GfLog, GfIlog, ReadLog, TableProduct;
    if v == 255 {
      OneBy255();
    } else {
      TableProductOne(v, 175);
    }
  }

  lemma OneBy255()
    ensures TableProduct(1, 255, 175) == 255
  {
    hide Exp, GfLog, GfIlog;
    PowerBelow255(175);
    GfIlogIsExp(175);
    StrayLog(175);
    OneLog();
  }

  lemma OneLog()
    ensures GfLog(1) == 0
  {}

  /** One lost disk is determined for every column exactly when there is none to lose, or the byte is that one. */
  lemma WrittenCorrectsOneExactly(n: nat, s: nat)
    requires s < 255
    ensures WrittenCorrectsOne(n, s) <==> n == 0 || s == 175
  {
    hide SameWritten, Exp, WrittenSymbol, Single;
    if n > 0 && s != 175 {
      SinglesCollide(n, 0, s);
    } else {
      forall a, b, x: nat | |a| == n && x < n && AgreeOutside(a, b, {x}) && SameWritten(a, b, s)
        ensures a == b
      {
        OneOf175(a, b, x);
      }
    }
  }

  lemma OneOf175(a: seq<bv8>, b: seq<bv8>, x: nat)
    requires x < |a| && AgreeOutside(a, b, {x}) && SameWritten(a, b, 175)
    ensures a == b
  {
    hide WrittenSymbol, Coefficient, TableProduct, Add;
    RowsOfWritten(a, b, 175);
    WrittenPeel(1, a, x, 175);
    WrittenPeel(1, b, x, 175);
    var rest := a[x := 0];
    assert rest == b[x := 0];
    CoefficientOne(x, 175);
    ProductByOne(a[x]);
    ProductByOne(b[x]);
    AddCancel(WrittenSymbol(1, rest, 175), a[x]);
    AddCancel(a[x], WrittenSymbol(1, rest, 175));
    AddCancel(b[x], WrittenSymbol(1, rest, 175));
  }

  /** Whatever lies there: only with no data disks. */
  lemma AnyColumnOneLost(n: nat)
    ensures (forall s: nat | s < 256 :: WrittenCorrectsOne(n, s)) <==> n == 0
  {
    hide WrittenCorrectsOne;
    if n == 0 {
      forall s: nat | s < 256
        ensures WrittenCorrectsOne(0, s)
      {
        NoneToLose(s);
      }
    } else {
      WrittenCorrectsOneExactly(n, 0);
    }
  }

  lemma NoneToLose(s: nat)
    requires s < 256
    ensures WrittenCorrectsOne(0, s)
  {}
}
