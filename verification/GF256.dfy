/** Arithmetic of the field with 256 elements, polynomial x^8 + x^4 + x^3 + x^2 + 1 (0x11d).

    A byte is a polynomial over the two-element field.  Everything that the encoders compute
    is an expression in `Add` (xor) and in multiplication by two. */
module GF256 {

  /** Addition of the field: the exclusive or. */
  function Add(a: bv8, b: bv8): (sum: bv8) {
    a ^ b
  }

  /** Multiplication by two: shift left, and reduce by 0x1d when the top bit falls out. */
  function Double(a: bv8): (double: bv8) {
    (a << 1) ^ ((a >> 7) * 0x1d)
  }

  /** Division by two, the inverse of `Double`. */
  function Halve(a: bv8): (half: bv8) {
    (a >> 1) ^ ((a & 1) * 0x8e)
  }

  function ShiftDown(a: bv8): (h: bv8)
    ensures a != 0 ==> h < a
  {
    a >> 1
  }

  /** b if a is odd, 0 if a is even. */
  function IfOdd(a: bv8, b: bv8): (part: bv8) {
    (a & 1) * b
  }

  /** The field product, by shift and reduce over the bits of the first factor. */
  function Mul(a: bv8, b: bv8): (product: bv8)
    decreases a
  {
    if a == 0 then 0 else Add(Double(Mul(ShiftDown(a), b)), IfOdd(a, b))
  }

  function Pow(a: bv8, k: nat): (power: bv8) {
    if k == 0 then 1 else Mul(a, Pow(a, k - 1))
  }

  /** Two to the power k, as the encoders build it: by doubling. */
  function Exp(k: nat): (power: bv8) {
    if k == 0 then 1 else Double(Exp(k - 1))
  }

  // ----- Laws of addition -----

  lemma AddLaws(a: bv8, b: bv8)
    ensures Add(a, 0) == a == Add(0, a)
    ensures Add(a, a) == 0
    ensures Add(a, b) == Add(b, a)
    ensures Add(a, b) == 0 <==> a == b
  {}

  lemma XorAssoc(a: bv8, b: bv8, c: bv8, ab: bv8, bc: bv8)
    requires ab == a ^ b && bc == b ^ c
    ensures ab ^ c == a ^ bc
  {}

  lemma AddAssoc(a: bv8, b: bv8, c: bv8)
    ensures Add(Add(a, b), c) == Add(a, Add(b, c))
  {
    XorAssoc(a, b, c, Add(a, b), Add(b, c));
  }

  lemma AddSwap(a: bv8, b: bv8, c: bv8, d: bv8)
    ensures Add(Add(a, b), Add(c, d)) == Add(Add(a, c), Add(b, d))
  {
    hide Add;
    AddAssoc(a, b, Add(c, d));
    AddAssoc(b, c, d);
    AddLaws(b, c);
    AddAssoc(c, b, d);
    AddAssoc(a, c, Add(b, d));
  }

  lemma AddCancel(a: bv8, b: bv8)
    ensures Add(Add(a, b), b) == a
    ensures Add(b, Add(b, a)) == a
  {
    hide Add;
    AddAssoc(a, b, b);
    AddAssoc(b, b, a);
    AddLaws(a, b);
    AddLaws(b, b);
  }

  // ----- Doubling -----

  lemma DoubleAdd(a: bv8, b: bv8)
    ensures Double(Add(a, b)) == Add(Double(a), Double(b))
  {}

  lemma DoubleHalve(a: bv8)
    ensures Double(Halve(a)) == a
    ensures Halve(Double(a)) == a
  {}

  lemma DoubleZero(a: bv8)
    ensures Double(a) == 0 <==> a == 0
  {}

  /** Doubling eight times is the same as multiplying by 0x1d: the reduction of x^8. */
  lemma DoubleEight(b1: bv8, b2: bv8, b3: bv8, b4: bv8, b5: bv8, b6: bv8, b7: bv8, b8: bv8, b: bv8)
    requires b1 == Double(b) && b2 == Double(b1) && b3 == Double(b2) && b4 == Double(b3)
    requires b5 == Double(b4) && b6 == Double(b5) && b7 == Double(b6) && b8 == Double(b7)
    ensures b8 == Add(Add(Add(b4, b3), b2), b)
  {
    XorReduce(b1, b2, b3, b4, b8, b, Add(b4, b3), Add(Add(b4, b3), b2));
  }

  lemma XorReduce(b1: bv8, b2: bv8, b3: bv8, b4: bv8, b8: bv8, b: bv8, s: bv8, t: bv8)
    requires b1 == Double(b) && b2 == Double(b1) && b3 == Double(b2) && b4 == Double(b3)
    requires b8 == Double(Double(Double(Double(b4))))
    requires s == b4 ^ b3 && t == s ^ b2
    ensures b8 == t ^ b
  {}

  // ----- The product is bilinear -----

  lemma IfOddCases(a: bv8, b: bv8)
    ensures IfOdd(a, b) == if a & 1 == 0 then 0 else b
  {}

  lemma IfOddAddRight(a: bv8, b: bv8, c: bv8)
    ensures IfOdd(a, Add(b, c)) == Add(IfOdd(a, b), IfOdd(a, c))
  {
    hide Add, IfOdd;
    IfOddCases(a, b);
    IfOddCases(a, c);
    IfOddCases(a, Add(b, c));
    AddLaws(0, 0);
  }

  lemma IfOddAddLeft(a: bv8, b: bv8, c: bv8)
    ensures IfOdd(Add(a, b), c) == Add(IfOdd(a, c), IfOdd(b, c))
  {}

  lemma ShiftDownAdd(a: bv8, b: bv8)
    ensures ShiftDown(Add(a, b)) == Add(ShiftDown(a), ShiftDown(b))
  {}

  lemma {:induction false} MulZero(a: bv8)
    ensures Mul(a, 0) == 0 == Mul(0, a)
    decreases a
  {
    if a != 0 {
      MulZero(ShiftDown(a));
    }
  }

  lemma MulUnfold(a: bv8, b: bv8)
    ensures Mul(a, b) == Add(Double(Mul(ShiftDown(a), b)), IfOdd(a, b))
  {}

  lemma {:induction false} MulAddRight(a: bv8, b: bv8, c: bv8)
    ensures Mul(a, Add(b, c)) == Add(Mul(a, b), Mul(a, c))
    decreases a
  {
    hide Double, IfOdd, ShiftDown, Add;
    if a == 0 {
      AddLaws(0, 0);
    } else {
      var h := ShiftDown(a);
      MulAddRight(h, b, c);
      DoubleAdd(Mul(h, b), Mul(h, c));
      IfOddAddRight(a, b, c);
      AddSwap(Double(Mul(h, b)), Double(Mul(h, c)), IfOdd(a, b), IfOdd(a, c));
    }
  }

  lemma {:induction false} MulAddLeft(a: bv8, b: bv8, c: bv8)
    ensures Mul(Add(a, b), c) == Add(Mul(a, c), Mul(b, c))
    decreases a, b
  {
    hide Double, IfOdd, ShiftDown, Add, Mul;
    if a == 0 {
      MulZero(c);
      AddLaws(b, 0);
      AddLaws(Mul(b, c), 0);
    } else {
      var h, k := ShiftDown(a), ShiftDown(b);
      MulAddLeft(h, k, c);
      ShiftDownAdd(a, b);
      MulUnfold(Add(a, b), c);
      MulUnfold(a, c);
      MulUnfold(b, c);
      DoubleAdd(Mul(h, c), Mul(k, c));
      IfOddAddLeft(a, b, c);
      AddSwap(Double(Mul(h, c)), Double(Mul(k, c)), IfOdd(a, c), IfOdd(b, c));
    }
  }

  lemma {:induction false} MulDoubleRight(a: bv8, b: bv8)
    ensures Mul(a, Double(b)) == Double(Mul(a, b))
    decreases a
  {
    hide Double, IfOdd, ShiftDown, Add;
    if a == 0 {
      DoubleZero(0);
    } else {
      MulDoubleRight(ShiftDown(a), b);
      DoubleAdd(Double(Mul(ShiftDown(a), b)), IfOdd(a, b));
      IfOddDouble(a, b);
    }
  }

  lemma IfOddDouble(a: bv8, b: bv8)
    ensures IfOdd(a, Double(b)) == Double(IfOdd(a, b))
  {
    hide Double, IfOdd;
    IfOddCases(a, b);
    IfOddCases(a, Double(b));
    DoubleZero(0);
  }

  // ----- Doubling the first factor -----

  /** a < 128: doubling does not reduce. */
  lemma DoubleSmall(a: bv8)
    requires a < 128
    ensures ShiftDown(Double(a)) == a
    ensures forall b :: IfOdd(Double(a), b) == 0
    ensures ShiftDown(Add(Double(a), 1)) == a
    ensures forall b :: IfOdd(Add(Double(a), 1), b) == b
  {}

  lemma MulEven(a: bv8, b: bv8)
    requires a < 128
    ensures Mul(Double(a), b) == Double(Mul(a, b))
    ensures Mul(Add(Double(a), 1), b) == Add(Double(Mul(a, b)), b)
  {
    hide Double, IfOdd, ShiftDown, Add, Mul;
    DoubleSmall(a);
    MulUnfold(Double(a), b);
    MulUnfold(Add(Double(a), 1), b);
    AddLaws(Double(Mul(a, b)), 0);
  }

  lemma {:induction false} MulOne(a: bv8)
    ensures Mul(1, a) == a == Mul(a, 1)
    decreases a
  {
    MulZero(a);
    MulUnfold(1, a);
    DoubleZero(0);
    assert ShiftDown(1) == 0 && IfOdd(1, a) == a;
    AddLaws(a, 0);
    if a != 0 {
      MulOne(ShiftDown(a));
      Rebuild(a);
    }
  }

  lemma Rebuild(a: bv8)
    ensures Add(Double(ShiftDown(a)), IfOdd(a, 1)) == a
  {}

  /** 0x1d b = x^8 b: the product of the reduction polynomial's tail, and doubling eight times. */
  lemma MulTopBit(b: bv8)
    ensures Mul(0x1d, b) == Double(Mul(0x80, b))
  {
    hide Double, IfOdd, ShiftDown, Add, Mul;
    var b1 := Double(b);
    var b2 := Double(b1);
    var b3 := Double(b2);
    var b4 := Double(b3);
    LiteralBytes();
    MulOne(b);
    MulEven(1, b);
    MulEven(2, b);
    MulEven(4, b);
    MulEven(8, b);
    MulEven(16, b);
    MulEven(32, b);
    MulEven(64, b);
    assert Mul(0x80, b) == Double(Double(Double(b4)));
    // 0x1d is 11101 in binary
    MulEven(3, b);
    MulEven(7, b);
    MulEven(14, b);
    assert Mul(3, b) == Add(b1, b);
    DoubleAdd(b1, b);
    assert Mul(7, b) == Add(Add(b2, b1), b);
    DoubleAdd(Add(b2, b1), b);
    DoubleAdd(b2, b1);
    assert Mul(14, b) == Add(Add(b3, b2), b1);
    DoubleAdd(Add(b3, b2), b1);
    DoubleAdd(b3, b2);
    assert Mul(0x1d, b) == Add(Add(Add(b4, b3), b2), b);
    DoubleEight(b1, b2, b3, b4, Double(b4), Double(Double(b4)), Double(Double(Double(b4))), Double(Mul(0x80, b)), b);
  }

  lemma LiteralBytes()
    ensures Double(1) == 2 && Double(2) == 4 && Double(4) == 8 && Double(8) == 16 && Double(16) == 32
    ensures Double(32) == 64 && Double(64) == 128 && Double(128) == 0x1d
    ensures Add(Double(1), 1) == 3 && Add(Double(3), 1) == 7 && Double(7) == 14 && Add(Double(14), 1) == 0x1d
  {}

  lemma MulDoubleLeft(a: bv8, b: bv8)
    ensures Mul(Double(a), b) == Double(Mul(a, b))
  {
    hide Double, IfOdd, ShiftDown, Add, Mul;
    if a < 128 {
      MulEven(a, b);
    } else {
      var t := Add(a, 128);
      SplitTopBit(a);
      LiteralBytes();
      DoubleAdd(t, 128);
      MulAddLeft(Double(t), 0x1d, b);
      MulEven(t, b);
      MulTopBit(b);
      DoubleAdd(Mul(t, b), Mul(128, b));
      MulAddLeft(t, 128, b);
    }
  }

  lemma SplitTopBit(a: bv8)
    requires a >= 128
    ensures Add(a, 128) < 128
    ensures Add(Add(a, 128), 128) == a
  {}

  // ----- Commutative, associative -----

  lemma {:induction false} MulComm(a: bv8, b: bv8)
    ensures Mul(a, b) == Mul(b, a)
    decreases a
  {
    hide Double, IfOdd, ShiftDown, Add, Mul;
    if a == 0 {
      MulZero(b);
    } else {
      var h := ShiftDown(a);
      MulComm(h, b);
      MulUnfold(a, b);
      Rebuild(a);
      MulAddRight(b, Double(h), IfOdd(a, 1));
      MulDoubleRight(b, h);
      IfOddCases(a, 1);
      IfOddCases(a, b);
      MulOne(b);
      MulZero(b);
    }
  }

  lemma {:induction false} MulAssoc(a: bv8, b: bv8, c: bv8)
    ensures Mul(Mul(a, b), c) == Mul(a, Mul(b, c))
    decreases a
  {
    hide Double, IfOdd, ShiftDown, Add, Mul;
    if a == 0 {
      MulZero(b);
      MulZero(c);
      MulZero(Mul(b, c));
    } else {
      var h := ShiftDown(a);
      MulAssoc(h, b, c);
      MulUnfold(a, b);
      MulUnfold(a, Mul(b, c));
      MulAddLeft(Double(Mul(h, b)), IfOdd(a, b), c);
      MulDoubleLeft(Mul(h, b), c);
      IfOddCases(a, b);
      IfOddCases(a, Mul(b, c));
      MulZero(c);
    }
  }

  lemma MulTwo(b: bv8)
    ensures Mul(2, b) == Double(b)
  {
    hide Double, IfOdd, ShiftDown, Add, Mul;
    MulOne(b);
    LiteralBytes();
    MulEven(1, b);
  }

  // ----- Powers -----

  lemma {:induction false} PowAdd(a: bv8, j: nat, k: nat)
    ensures Pow(a, j + k) == Mul(Pow(a, j), Pow(a, k))
  {
    hide Mul;
    if j == 0 {
      MulOne(Pow(a, k));
    } else {
      PowAdd(a, j - 1, k);
      MulAssoc(a, Pow(a, j - 1), Pow(a, k));
    }
  }

  lemma {:induction false} ExpIsPow(k: nat)
    ensures Exp(k) == Pow(2, k)
  {
    hide Double, Mul;
    if k > 0 {
      ExpIsPow(k - 1);
      MulTwo(Exp(k - 1));
    }
  }

  lemma {:induction false} ExpAdd(j: nat, k: nat)
    ensures Exp(j + k) == Mul(Exp(j), Exp(k))
  {
    ExpIsPow(j);
    ExpIsPow(k);
    ExpIsPow(j + k);
    PowAdd(2, j, k);
  }

  lemma {:induction false} ExpNonZero(k: nat)
    ensures Exp(k) != 0
  {
    hide Double;
    if k > 0 {
      ExpNonZero(k - 1);
      DoubleZero(Exp(k - 1));
    }
  }

  /** Multiplying by a power of two is injective: it is repeated doubling. */
  lemma {:induction false} ExpTimesZero(k: nat, b: bv8)
    ensures Mul(Exp(k), b) == 0 <==> b == 0
  {
    hide Double, Mul;
    if k == 0 {
      MulOne(b);
    } else {
      ExpTimesZero(k - 1, b);
      MulDoubleLeft(Exp(k - 1), b);
      DoubleZero(Mul(Exp(k - 1), b));
    }
  }
}
