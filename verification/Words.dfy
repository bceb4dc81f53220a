/** The machine word `unative_t` and the operations on it, in both widths. */
module Words {
  import opened GF256

  /** NSIZE: bytes in a machine word, of 64 bits or of 32. */
  function NSize(wide: bool): (n: nat)
    ensures n * 8 == if wide then 64 else 32
  {
    if wide then 8 else 4
  }

  /** A word of four or eight bytes: NSIZE is 4 or 8. */
  datatype Word = W32(v32: bv32) | W64(v64: bv64) {
    function Size(): (n: nat)
      ensures n == 4 || n == 8
    {
      if W32? then 4 else 8
    }

    /** Byte i in memory order, for a machine that stores the low byte first. */
    function Byte(i: nat): (b: bv8)
      requires i < Size()
    {
      match this
      case W32(v) => Byte32(v, i)
      case W64(v) => Byte64(v, i)
    }
  }

  function Byte32(v: bv32, i: nat): (b: bv8)
    requires i < 4
  {
    match i
    case 0 => (v & 0xff) as bv8
    case 1 => ((v >> 8) & 0xff) as bv8
    case 2 => ((v >> 16) & 0xff) as bv8
    case _ => ((v >> 24) & 0xff) as bv8
  }

  function Byte64(v: bv64, i: nat): (b: bv8)
    requires i < 8
  {
    match i
    case 0 => (v & 0xff) as bv8
    case 1 => ((v >> 8) & 0xff) as bv8
    case 2 => ((v >> 16) & 0xff) as bv8
    case 3 => ((v >> 24) & 0xff) as bv8
    case 4 => ((v >> 32) & 0xff) as bv8
    case 5 => ((v >> 40) & 0xff) as bv8
    case 6 => ((v >> 48) & 0xff) as bv8
    case _ => ((v >> 56) & 0xff) as bv8
  }

  // ----- The operations of the source -----

  /** NBYTES: the byte x in every lane. */
  function NBytes32(x: bv32): (w: bv32) {
    x * 0x01010101
  }

  function NBytes64(x: bv64): (w: bv64) {
    x * 0x0101010101010101
  }

  /** SHLBYTE: shift each byte left by one, not rolling over into the next byte. */
  function ShlByte32(v: bv32): (w: bv32) {
    (v << 1) & NBytes32(0xfe)
  }

  function ShlByte64(v: bv64): (w: bv64) {
    (v << 1) & NBytes64(0xfe)
  }

  /** MASK: 0xff in every byte whose top bit is set, 0x00 in the others.  The subtraction wraps. */
  function Mask32(v: bv32): (w: bv32) {
    var vv := v & NBytes32(0x80);
    (vv << 1) - (vv >> 7)
  }

  function Mask64(v: bv64): (w: bv64) {
    var vv := v & NBytes64(0x80);
    (vv << 1) - (vv >> 7)
  }

  /** One turn of the encoder's inner loop: (SHLBYTE(wq0) ^ (MASK(wq0) & NBYTES(0x1d))) ^ wd0 */
  function Horner32(q: bv32, d: bv32): (w: bv32) {
    (ShlByte32(q) ^ (Mask32(q) & NBytes32(0x1d))) ^ d
  }

  function Horner64(q: bv64, d: bv64): (w: bv64) {
    (ShlByte64(q) ^ (Mask64(q) & NBytes64(0x1d))) ^ d
  }

  // ----- One lane at a time: no carry or borrow crosses into a neighbour -----

  lemma Lane32At0(q: bv32, d: bv32)
    ensures Byte32(Horner32(q, d), 0) == Add(Double(Byte32(q, 0)), Byte32(d, 0))
    ensures Byte32(q ^ d, 0) == Add(Byte32(q, 0), Byte32(d, 0))
  {}

  lemma Lane32At1(q: bv32, d: bv32)
    ensures Byte32(Horner32(q, d), 1) == Add(Double(Byte32(q, 1)), Byte32(d, 1))
    ensures Byte32(q ^ d, 1) == Add(Byte32(q, 1), Byte32(d, 1))
  {}

  lemma Lane32At2(q: bv32, d: bv32)
    ensures Byte32(Horner32(q, d), 2) == Add(Double(Byte32(q, 2)), Byte32(d, 2))
    ensures Byte32(q ^ d, 2) == Add(Byte32(q, 2), Byte32(d, 2))
  {}

  lemma Lane32At3(q: bv32, d: bv32)
    ensures Byte32(Horner32(q, d), 3) == Add(Double(Byte32(q, 3)), Byte32(d, 3))
    ensures Byte32(q ^ d, 3) == Add(Byte32(q, 3), Byte32(d, 3))
  {}

  lemma Lanes32(q: bv32, d: bv32, i: nat)
    requires i < 4
    ensures Byte32(Horner32(q, d), i) == Add(Double(Byte32(q, i)), Byte32(d, i))
    ensures Byte32(q ^ d, i) == Add(Byte32(q, i), Byte32(d, i))
  {
    hide Byte32, Horner32, Add, Double;
    match i
    case 0 => Lane32At0(q, d);
    case 1 => Lane32At1(q, d);
    case 2 => Lane32At2(q, d);
    case _ => Lane32At3(q, d);
  }

  lemma Lane64At0(q: bv64, d: bv64)
    ensures Byte64(Horner64(q, d), 0) == Add(Double(Byte64(q, 0)), Byte64(d, 0))
    ensures Byte64(q ^ d, 0) == Add(Byte64(q, 0), Byte64(d, 0))
  {}

  lemma Lane64At1(q: bv64, d: bv64)
    ensures Byte64(Horner64(q, d), 1) == Add(Double(Byte64(q, 1)), Byte64(d, 1))
    ensures Byte64(q ^ d, 1) == Add(Byte64(q, 1), Byte64(d, 1))
  {}

  lemma Lane64At2(q: bv64, d: bv64)
    ensures Byte64(Horner64(q, d), 2) == Add(Double(Byte64(q, 2)), Byte64(d, 2))
    ensures Byte64(q ^ d, 2) == Add(Byte64(q, 2), Byte64(d, 2))
  {}

  lemma Lane64At3(q: bv64, d: bv64)
    ensures Byte64(Horner64(q, d), 3) == Add(Double(Byte64(q, 3)), Byte64(d, 3))
    ensures Byte64(q ^ d, 3) == Add(Byte64(q, 3), Byte64(d, 3))
  {}

  lemma Lane64At4(q: bv64, d: bv64)
    ensures Byte64(Horner64(q, d), 4) == Add(Double(Byte64(q, 4)), Byte64(d, 4))
    ensures Byte64(q ^ d, 4) == Add(Byte64(q, 4), Byte64(d, 4))
  {}

  lemma Lane64At5(q: bv64, d: bv64)
    ensures Byte64(Horner64(q, d), 5) == Add(Double(Byte64(q, 5)), Byte64(d, 5))
    ensures Byte64(q ^ d, 5) == Add(Byte64(q, 5), Byte64(d, 5))
  {}

  lemma Lane64At6(q: bv64, d: bv64)
    ensures Byte64(Horner64(q, d), 6) == Add(Double(Byte64(q, 6)), Byte64(d, 6))
    ensures Byte64(q ^ d, 6) == Add(Byte64(q, 6), Byte64(d, 6))
  {}

  lemma Lane64At7(q: bv64, d: bv64)
    ensures Byte64(Horner64(q, d), 7) == Add(Double(Byte64(q, 7)), Byte64(d, 7))
    ensures Byte64(q ^ d, 7) == Add(Byte64(q, 7), Byte64(d, 7))
  {}

  lemma Lanes64(q: bv64, d: bv64, i: nat)
    requires i < 8
    ensures Byte64(Horner64(q, d), i) == Add(Double(Byte64(q, i)), Byte64(d, i))
    ensures Byte64(q ^ d, i) == Add(Byte64(q, i), Byte64(d, i))
  {
    hide Byte64, Horner64, Add, Double;
    match i
    case 0 => Lane64At0(q, d);
    case 1 => Lane64At1(q, d);
    case 2 => Lane64At2(q, d);
    case 3 => Lane64At3(q, d);
    case 4 => Lane64At4(q, d);
    case 5 => Lane64At5(q, d);
    case 6 => Lane64At6(q, d);
    case _ => Lane64At7(q, d);
  }

  // ----- Words of either width -----

  function HornerWord(q: Word, d: Word): (r: Word)
    requires q.Size() == d.Size()
    ensures r.Size() == q.Size()
  {
    if q.W32? then W32(Horner32(q.v32, d.v32)) else W64(Horner64(q.v64, d.v64))
  }

  function XorWord(a: Word, b: Word): (r: Word)
    requires a.Size() == b.Size()
    ensures r.Size() == a.Size()
  {
    if a.W32? then W32(a.v32 ^ b.v32) else W64(a.v64 ^ b.v64)
  }

  /** Each byte of a word steps on its own: double, and add the data byte. */
  lemma HornerByte(q: Word, d: Word, i: nat)
    requires q.Size() == d.Size() && i < q.Size()
    ensures HornerWord(q, d).Byte(i) == Add(Double(q.Byte(i)), d.Byte(i))
    ensures XorWord(q, d).Byte(i) == Add(q.Byte(i), d.Byte(i))
  {
    hide Byte32, Byte64, Horner32, Horner64, Add, Double;
    if q.W32? {
      Lanes32(q.v32, d.v32, i);
    } else {
      Lanes64(q.v64, d.v64, i);
    }
  }

  function Pack32(a: bv8, b: bv8, c: bv8, d: bv8): (w: bv32) {
    (a as bv32) | ((b as bv32) << 8) | ((c as bv32) << 16) | ((d as bv32) << 24)
  }

  function Pack64(lo: bv32, hi: bv32): (w: bv64) {
    (lo as bv64) | ((hi as bv64) << 32)
  }

  /** The word read from consecutive bytes. */
  function Load(s: seq<bv8>): (w: Word)
    requires |s| == 4 || |s| == 8
    ensures w.Size() == |s|
  {
    var lo := Pack32(s[0], s[1], s[2], s[3]);
    if |s| == 4 then W32(lo) else W64(Pack64(lo, Pack32(s[4], s[5], s[6], s[7])))
  }

  lemma Unpack32(a: bv8, b: bv8, c: bv8, d: bv8)
    ensures Byte32(Pack32(a, b, c, d), 0) == a
    ensures Byte32(Pack32(a, b, c, d), 1) == b
    ensures Byte32(Pack32(a, b, c, d), 2) == c
    ensures Byte32(Pack32(a, b, c, d), 3) == d
  {}

  lemma Unpack64(lo: bv32, hi: bv32)
    ensures Byte64(Pack64(lo, hi), 0) == Byte32(lo, 0) && Byte64(Pack64(lo, hi), 4) == Byte32(hi, 0)
    ensures Byte64(Pack64(lo, hi), 1) == Byte32(lo, 1) && Byte64(Pack64(lo, hi), 5) == Byte32(hi, 1)
    ensures Byte64(Pack64(lo, hi), 2) == Byte32(lo, 2) && Byte64(Pack64(lo, hi), 6) == Byte32(hi, 2)
    ensures Byte64(Pack64(lo, hi), 3) == Byte32(lo, 3) && Byte64(Pack64(lo, hi), 7) == Byte32(hi, 3)
  {}

  lemma LoadByte(s: seq<bv8>, i: nat)
    requires |s| == 4 || |s| == 8
    requires i < |s|
    ensures Load(s).Byte(i) == s[i]
  {
    hide Byte32, Byte64, Pack32, Pack64;
    var lo := Pack32(s[0], s[1], s[2], s[3]);
    Unpack32(s[0], s[1], s[2], s[3]);
    if |s| == 8 {
      Unpack32(s[4], s[5], s[6], s[7]);
      Unpack64(lo, Pack32(s[4], s[5], s[6], s[7]));
      if i < 4 {
      } else if i < 6 {
      } else {
      }
    }
  }
}
