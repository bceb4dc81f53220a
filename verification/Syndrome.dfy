/** The check bytes of a stripe, byte column by byte column. */
module Syndrome {
  import opened GF256

  /** The encoders' loop over the disks, from the highest data disk down: D[0] + r (D[1] + r (D[2] + ...)). */
  function Horner(r: bv8, column: seq<bv8>): (value: bv8) {
    if |column| == 0 then 0 else Add(column[0], Mul(r, Horner(r, column[1..])))
  }

  /** The definition of a check byte: the sum over all disks z of r^z D[z]. */
  function PowerSum(r: bv8, column: seq<bv8>): (sum: bv8) {
    if |column| == 0 then 0
    else
      var z := |column| - 1;
      Add(PowerSum(r, column[..z]), Mul(Pow(r, z), column[z]))
  }

  /** The exclusive or of all bytes. */
  function Parity(column: seq<bv8>): (parity: bv8) {
    if |column| == 0 then 0 else Add(Parity(column[..|column| - 1]), column[|column| - 1])
  }

  /** P and Q of a byte column. */
  function PByte(column: seq<bv8>): (p: bv8) {
    Parity(column)
  }

  function QByte(column: seq<bv8>): (q: bv8) {
    PowerSum(2, column)
  }

  // ----- The backward Horner loop computes the forward power sum -----

  lemma {:induction false} PowerSumFront(r: bv8, column: seq<bv8>)
    requires |column| > 0
    ensures PowerSum(r, column) == Add(column[0], Mul(r, PowerSum(r, column[1..])))
    decreases |column|
  {
    hide Add, Mul;
    var z := |column| - 1;
    if z == 0 {
      assert column[..0] == [];
      MulOne(column[0]);
      AddLaws(column[0], 0);
      MulZero(r);
      assert column[1..] == [];
    } else {
      var tail := column[1..];
      PowerSumFront(r, column[..z]);
      assert column[..z][1..] == tail[..z - 1];
      var s, t := PowerSum(r, tail[..z - 1]), Mul(Pow(r, z - 1), column[z]);
      MulAddRight(r, s, t);
      MulAssoc(r, Pow(r, z - 1), column[z]);
      AddAssoc(column[0], Mul(r, s), Mul(r, t));
    }
  }

  lemma {:induction false} HornerIsPowerSum(r: bv8, column: seq<bv8>)
    ensures Horner(r, column) == PowerSum(r, column)
  {
    hide Add, Mul;
    if |column| > 0 {
      HornerIsPowerSum(r, column[1..]);
      PowerSumFront(r, column);
    }
  }

  lemma {:induction false} PowOne(k: nat)
    ensures Pow(1, k) == 1
  {
    hide Mul;
    if k > 0 {
      PowOne(k - 1);
      MulOne(1);
    }
  }

  lemma {:induction false} ParityIsPowerSum(column: seq<bv8>)
    ensures Parity(column) == PowerSum(1, column)
  {
    hide Add, Mul, Pow;
    if |column| > 0 {
      var z := |column| - 1;
      ParityIsPowerSum(column[..z]);
      PowOne(z);
      MulOne(column[z]);
    }
  }

  /** The step of the inner loop: one more disk below those already folded in. */
  lemma HornerStep(column: seq<bv8>, z: nat)
    requires z < |column|
    ensures Horner(1, column[z..]) == Add(Horner(1, column[z + 1..]), column[z])
    ensures Horner(2, column[z..]) == Add(Double(Horner(2, column[z + 1..])), column[z])
  {
    hide Add, Mul, Double;
    var tail := column[z..];
    assert tail[1..] == column[z + 1..];
    MulOne(Horner(1, tail[1..]));
    MulTwo(Horner(2, tail[1..]));
    AddLaws(tail[0], Horner(1, tail[1..]));
    AddLaws(tail[0], Double(Horner(2, tail[1..])));
  }

  lemma HornerLast(column: seq<bv8>)
    requires |column| > 0
    ensures Horner(1, column[|column| - 1..]) == column[|column| - 1] == Horner(2, column[|column| - 1..])
  {
    hide Add, Mul, Double;
    HornerStep(column, |column| - 1);
    AddLaws(column[|column| - 1], 0);
    DoubleZero(0);
  }

  lemma HornerIsPQ(column: seq<bv8>)
    ensures Horner(1, column[0..]) == PByte(column)
    ensures Horner(2, column[0..]) == QByte(column)
  {
    assert column[0..] == column;
    HornerIsPowerSum(1, column);
    HornerIsPowerSum(2, column);
    ParityIsPowerSum(column);
  }

  // ----- Linearity -----

  function AddColumns(a: seq<bv8>, b: seq<bv8>): (c: seq<bv8>)
    requires |a| == |b|
    ensures |c| == |a|
  {
    seq(|a|, z requires 0 <= z < |a| => Add(a[z], b[z]))
  }

  lemma {:induction false} PowerSumLinear(r: bv8, a: seq<bv8>, b: seq<bv8>)
    requires |a| == |b|
    ensures PowerSum(r, AddColumns(a, b)) == Add(PowerSum(r, a), PowerSum(r, b))
  {
    hide Add, Mul, Pow;
    if |a| == 0 {
      AddLaws(0, 0);
    } else {
      var z := |a| - 1;
      PowerSumLinear(r, a[..z], b[..z]);
      assert AddColumns(a, b)[..z] == AddColumns(a[..z], b[..z]);
      MulAddRight(Pow(r, z), a[z], b[z]);
      AddSwap(PowerSum(r, a[..z]), PowerSum(r, b[..z]), Mul(Pow(r, z), a[z]), Mul(Pow(r, z), b[z]));
    }
  }

  // ----- Stripes of buffers -----

  /** The bytes at offset i of every buffer. */
  function Column(buffers: seq<seq<bv8>>, i: nat): (column: seq<bv8>)
    requires forall z :: 0 <= z < |buffers| ==> i < |buffers[z]|
    ensures |column| == |buffers|
  {
    seq(|buffers|, z requires 0 <= z < |buffers| => buffers[z][i])
  }

  /** p and q hold the check bytes of the data buffers at the offsets below `bytes`. */
  predicate Encoded(data: seq<seq<bv8>>, p: seq<bv8>, q: seq<bv8>, bytes: nat) {
    && (forall z :: 0 <= z < |data| ==> bytes <= |data[z]|)
    && bytes <= |p| && bytes <= |q|
    && forall i :: 0 <= i < bytes ==> p[i] == PByte(Column(data, i)) && q[i] == QByte(Column(data, i))
  }
}
