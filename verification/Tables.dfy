/** The log and antilog tables of the multi-failure encoder. */
module Tables {
  import opened GF256

  /** Exponents of two, modulo 255. */
  type Exponent = k: nat | k < 255
  type PositiveExponent = k: nat | 0 < k < 255 witness 1

  // ----- The literal tables, sixteen entries to a row -----

  // gflog: 255 entries, so the row of 240 is one short and index 255 does not exist.
  const GFLOG_0: seq<Exponent> := [0, 0, 1, 25, 2, 50, 26, 198, 3, 223, 51, 238, 27, 104, 199, 75]
  const GFLOG_1: seq<PositiveExponent> := [4, 100, 224, 14, 52, 141, 239, 129, 28, 193, 105, 248, 200, 8, 76, 113]
  const GFLOG_2: seq<PositiveExponent> := [5, 138, 101, 47, 225, 36, 15, 33, 53, 147, 142, 218, 240, 18, 130, 69]
  const GFLOG_3: seq<PositiveExponent> := [29, 181, 194, 125, 106, 39, 249, 185, 201, 154, 9, 120, 77, 228, 114, 166]
  const GFLOG_4: seq<PositiveExponent> := [6, 191, 139, 98, 102, 221, 48, 253, 226, 152, 37, 179, 16, 145, 34, 136]
  const GFLOG_5: seq<PositiveExponent> := [54, 208, 148, 206, 143, 150, 219, 189, 241, 210, 19, 92, 131, 56, 70, 64]
  const GFLOG_6: seq<PositiveExponent> := [30, 66, 182, 163, 195, 72, 126, 110, 107, 58, 40, 84, 250, 133, 186, 61]
  const GFLOG_7: seq<PositiveExponent> := [202, 94, 155, 159, 10, 21, 121, 43, 78, 212, 229, 172, 115, 243, 167, 87]
  const GFLOG_8: seq<PositiveExponent> := [7, 112, 192, 247, 140, 128, 99, 13, 103, 74, 222, 237, 49, 197, 254, 24]
  const GFLOG_9: seq<PositiveExponent> := [227, 165, 153, 119, 38, 184, 180, 124, 17, 68, 146, 217, 35, 32, 137, 46]
  const GFLOG_10: seq<PositiveExponent> := [55, 63, 209, 91, 149, 188, 207, 205, 144, 135, 151, 178, 220, 252, 190, 97]
  const GFLOG_11: seq<PositiveExponent> := [242, 86, 211, 171, 20, 42, 93, 158, 132, 60, 57, 83, 71, 109, 65, 162]
  const GFLOG_12: seq<PositiveExponent> := [31, 45, 67, 216, 183, 123, 164, 118, 196, 23, 73, 236, 127, 12, 111, 246]
  const GFLOG_13: seq<PositiveExponent> := [108, 161, 59, 82, 41, 157, 85, 170, 251, 96, 134, 177, 187, 204, 62, 90]
  const GFLOG_14: seq<PositiveExponent> := [203, 89, 95, 176, 156, 169, 160, 81, 11, 245, 22, 235, 122, 117, 44, 215]
  const GFLOG_15: seq<PositiveExponent> := [79, 174, 213, 233, 230, 231, 173, 232, 116, 214, 244, 234, 168, 80, 88]

  // gfilog: 255 entries, indices 0..254.
  const GFILOG_0: seq<bv8> := [1, 2, 4, 8, 16, 32, 64, 128, 29, 58, 116, 232, 205, 135, 19, 38]
  const GFILOG_1: seq<bv8> := [76, 152, 45, 90, 180, 117, 234, 201, 143, 3, 6, 12, 24, 48, 96, 192]
  const GFILOG_2: seq<bv8> := [157, 39, 78, 156, 37, 74, 148, 53, 106, 212, 181, 119, 238, 193, 159, 35]
  const GFILOG_3: seq<bv8> := [70, 140, 5, 10, 20, 40, 80, 160, 93, 186, 105, 210, 185, 111, 222, 161]
  const GFILOG_4: seq<bv8> := [95, 190, 97, 194, 153, 47, 94, 188, 101, 202, 137, 15, 30, 60, 120, 240]
  const GFILOG_5: seq<bv8> := [253, 231, 211, 187, 107, 214, 177, 127, 254, 225, 223, 163, 91, 182, 113, 226]
  const GFILOG_6: seq<bv8> := [217, 175, 67, 134, 17, 34, 68, 136, 13, 26, 52, 104, 208, 189, 103, 206]
  const GFILOG_7: seq<bv8> := [129, 31, 62, 124, 248, 237, 199, 147, 59, 118, 236, 197, 151, 51, 102, 204]
  const GFILOG_8: seq<bv8> := [133, 23, 46, 92, 184, 109, 218, 169, 79, 158, 33, 66, 132, 21, 42, 84]
  const GFILOG_9: seq<bv8> := [168, 77, 154, 41, 82, 164, 85, 170, 73, 146, 57, 114, 228, 213, 183, 115]
  const GFILOG_10: seq<bv8> := [230, 209, 191, 99, 198, 145, 63, 126, 252, 229, 215, 179, 123, 246, 241, 255]
  const GFILOG_11: seq<bv8> := [227, 219, 171, 75, 150, 49, 98, 196, 149, 55, 110, 220, 165, 87, 174, 65]
  const GFILOG_12: seq<bv8> := [130, 25, 50, 100, 200, 141, 7, 14, 28, 56, 112, 224, 221, 167, 83, 166]
  const GFILOG_13: seq<bv8> := [81, 162, 89, 178, 121, 242, 249, 239, 195, 155, 43, 86, 172, 69, 138, 9]
  const GFILOG_14: seq<bv8> := [18, 36, 72, 144, 61, 122, 244, 245, 247, 243, 251, 235, 203, 139, 11, 22]
  const GFILOG_15: seq<bv8> := [44, 88, 176, 125, 250, 233, 207, 131, 27, 54, 108, 216, 173, 71, 142]

  /** Row r of gflog.  Beyond the entries of 0 and 1, no logarithm is zero. */
  function LogRow(r: nat): (row: seq<Exponent>)
    ensures forall c :: 0 <= c < |row| && 16 * r + c >= 2 ==> row[c] > 0
  {
    match r
    case 0 => GFLOG_0
    case 1 => GFLOG_1
    case 2 => GFLOG_2
    case 3 => GFLOG_3
    case 4 => GFLOG_4
    case 5 => GFLOG_5
    case 6 => GFLOG_6
    case 7 => GFLOG_7
    case 8 => GFLOG_8
    case 9 => GFLOG_9
    case 10 => GFLOG_10
    case 11 => GFLOG_11
    case 12 => GFLOG_12
    case 13 => GFLOG_13
    case 14 => GFLOG_14
    case 15 => GFLOG_15
    case _ => []
  }

  /** Row r of gfilog. */
  function AntilogRow(r: nat): (row: seq<bv8>) {
    match r
    case 0 => GFILOG_0
    case 1 => GFILOG_1
    case 2 => GFILOG_2
    case 3 => GFILOG_3
    case 4 => GFILOG_4
    case 5 => GFILOG_5
    case 6 => GFILOG_6
    case 7 => GFILOG_7
    case 8 => GFILOG_8
    case 9 => GFILOG_9
    case 10 => GFILOG_10
    case 11 => GFILOG_11
    case 12 => GFILOG_12
    case 13 => GFILOG_13
    case 14 => GFILOG_14
    case 15 => GFILOG_15
    case _ => []
  }

  /** Every row has sixteen entries, but the last has fifteen. */
  lemma RowSizes(r: nat)
    requires r < 16
    ensures |LogRow(r)| == (if r == 15 then 15 else 16)
    ensures |AntilogRow(r)| == (if r == 15 then 15 else 16)
  {}

  /** gflog[n] of the source. */
  function GfLog(n: nat): (log: Exponent)
    requires n < 255
  {
    RowSizes(n / 16);
    LogRow(n / 16)[n % 16]
  }

  /** gfilog[k] of the source. */
  function GfIlog(k: nat): (antilog: bv8)
    requires k < 255
  {
    RowSizes(k / 16);
    AntilogRow(k / 16)[k % 16]
  }

  lemma AntilogRows()
    ensures AntilogRow(0) == GFILOG_0 && AntilogRow(1) == GFILOG_1 && AntilogRow(2) == GFILOG_2 &&
            AntilogRow(3) == GFILOG_3
    ensures AntilogRow(4) == GFILOG_4 && AntilogRow(5) == GFILOG_5 && AntilogRow(6) == GFILOG_6 &&
            AntilogRow(7) == GFILOG_7
    ensures AntilogRow(8) == GFILOG_8 && AntilogRow(9) == GFILOG_9 && AntilogRow(10) == GFILOG_10 &&
            AntilogRow(11) == GFILOG_11
    ensures AntilogRow(12) == GFILOG_12 && AntilogRow(13) == GFILOG_13 && AntilogRow(14) == GFILOG_14 &&
            AntilogRow(15) == GFILOG_15
  {}

  lemma AntilogEntry(r: nat, c: nat)
    requires r < 16 && c < 16 && c < |AntilogRow(r)| && 16 * r + c < 255
    ensures GfIlog(16 * r + c) == AntilogRow(r)[c]
  {
    hide AntilogRow;
  }

  // ----- The antilog table holds the powers of two -----

  /** b, 2b, 4b, ..., sixteen bytes. */
  function Run16(b: bv8): (s: seq<bv8>)
    ensures |s| == 16
  {
    var b1 := Double(b);
    var b2 := Double(b1);
    var b3 := Double(b2);
    var b4 := Double(b3);
    var b5 := Double(b4);
    var b6 := Double(b5);
    var b7 := Double(b6);
    var b8 := Double(b7);
    var b9 := Double(b8);
    var b10 := Double(b9);
    var b11 := Double(b10);
    var b12 := Double(b11);
    var b13 := Double(b12);
    var b14 := Double(b13);
    var b15 := Double(b14);
    [b, b1, b2, b3, b4, b5, b6, b7, b8, b9, b10, b11, b12, b13, b14, b15]
  }

  /** The entries of s up to index n double. */
  predicate Doubling(s: seq<bv8>, n: nat)
    requires n < |s|
  {
    n == 0 || (s[n] == Double(s[n - 1]) && Doubling(s, n - 1))
  }

  lemma RunDoubling(b: bv8)
    ensures Doubling(Run16(b), 15) && Run16(b)[0] == b
  {
    hide Double;
    var s := Run16(b);
    assert Doubling(s, 1);
    assert Doubling(s, 2);
    assert Doubling(s, 3);
    assert Doubling(s, 4);
    assert Doubling(s, 5);
    assert Doubling(s, 6);
    assert Doubling(s, 7);
    assert Doubling(s, 8);
    assert Doubling(s, 9);
    assert Doubling(s, 10);
    assert Doubling(s, 11);
    assert Doubling(s, 12);
    assert Doubling(s, 13);
    assert Doubling(s, 14);
    assert Doubling(s, 15);
  }

  /** s holds 2^k, 2^(k+1), ... */
  predicate PowersFrom(s: seq<bv8>, k: nat) {
    forall j :: 0 <= j < |s| ==> s[j] == Exp(k + j)
  }

  lemma {:induction false} DoublingIsExp(s: seq<bv8>, n: nat, k: nat)
    requires n < |s| && Doubling(s, n) && s[0] == Exp(k)
    ensures forall j :: 0 <= j <= n ==> s[j] == Exp(k + j)
  {
    hide Double;
    if n > 0 {
      DoublingIsExp(s, n - 1, k);
    }
  }

  lemma RunIsExp(s: seq<bv8>, b: bv8, k: nat, last: bv8)
    requires s == Run16(b) && b == Exp(k) && last == s[15]
    ensures PowersFrom(s, k) && Exp(k + 16) == Double(last)
  {
    hide Double, Run16;
    RunDoubling(b);
    DoublingIsExp(s, 15, k);
  }

  /** The literal rows, each checked to double from its first entry on. */
  lemma AntilogRuns()
    ensures GFILOG_0 == Run16(1) && GFILOG_0[15] == 38 && Double(38) == 76
    ensures GFILOG_1 == Run16(76) && GFILOG_1[15] == 192 && Double(192) == 157
    ensures GFILOG_2 == Run16(157) && GFILOG_2[15] == 35 && Double(35) == 70
    ensures GFILOG_3 == Run16(70) && GFILOG_3[15] == 161 && Double(161) == 95
    ensures GFILOG_4 == Run16(95) && GFILOG_4[15] == 240 && Double(240) == 253
    ensures GFILOG_5 == Run16(253) && GFILOG_5[15] == 226 && Double(226) == 217
    ensures GFILOG_6 == Run16(217) && GFILOG_6[15] == 206 && Double(206) == 129
    ensures GFILOG_7 == Run16(129) && GFILOG_7[15] == 204 && Double(204) == 133
    ensures GFILOG_8 == Run16(133) && GFILOG_8[15] == 84 && Double(84) == 168
    ensures GFILOG_9 == Run16(168) && GFILOG_9[15] == 115 && Double(115) == 230
    ensures GFILOG_10 == Run16(230) && GFILOG_10[15] == 255 && Double(255) == 227
    ensures GFILOG_11 == Run16(227) && GFILOG_11[15] == 65 && Double(65) == 130
    ensures GFILOG_12 == Run16(130) && GFILOG_12[15] == 166 && Double(166) == 81
    ensures GFILOG_13 == Run16(81) && GFILOG_13[15] == 9 && Double(9) == 18
    ensures GFILOG_14 == Run16(18) && GFILOG_14[15] == 22 && Double(22) == 44
    ensures GFILOG_15 + [1] == Run16(44) && (GFILOG_15 + [1])[15] == 1
  {}

  lemma AntilogPowers()
    ensures PowersFrom(GFILOG_0, 0)
    ensures PowersFrom(GFILOG_1, 16)
    ensures PowersFrom(GFILOG_2, 32)
    ensures PowersFrom(GFILOG_3, 48)
    ensures PowersFrom(GFILOG_4, 64)
    ensures PowersFrom(GFILOG_5, 80)
    ensures PowersFrom(GFILOG_6, 96)
    ensures PowersFrom(GFILOG_7, 112)
    ensures PowersFrom(GFILOG_8, 128)
    ensures PowersFrom(GFILOG_9, 144)
    ensures PowersFrom(GFILOG_10, 160)
    ensures PowersFrom(GFILOG_11, 176)
    ensures PowersFrom(GFILOG_12, 192)
    ensures PowersFrom(GFILOG_13, 208)
    ensures PowersFrom(GFILOG_14, 224)
    ensures PowersFrom(GFILOG_15 + [1], 240)
  {
    hide Double, Run16, PowersFrom;
    AntilogRuns();
    RunIsExp(GFILOG_0, 1, 0, 38);
    RunIsExp(GFILOG_1, 76, 16, 192);
    RunIsExp(GFILOG_2, 157, 32, 35);
    RunIsExp(GFILOG_3, 70, 48, 161);
    RunIsExp(GFILOG_4, 95, 64, 240);
    RunIsExp(GFILOG_5, 253, 80, 226);
    RunIsExp(GFILOG_6, 217, 96, 206);
    RunIsExp(GFILOG_7, 129, 112, 204);
    RunIsExp(GFILOG_8, 133, 128, 84);
    RunIsExp(GFILOG_9, 168, 144, 115);
    RunIsExp(GFILOG_10, 230, 160, 255);
    RunIsExp(GFILOG_11, 227, 176, 65);
    RunIsExp(GFILOG_12, 130, 192, 166);
    RunIsExp(GFILOG_13, 81, 208, 9);
    RunIsExp(GFILOG_14, 18, 224, 22);
    RunIsExp(GFILOG_15 + [1], 44, 240, 1);
  }

  lemma PowersFromPrefix(s: seq<bv8>, t: seq<bv8>, k: nat)
    requires PowersFrom(s + t, k)
    ensures PowersFrom(s, k)
  {
    forall j | 0 <= j < |s|
      ensures s[j] == Exp(k + j)
    {
      assert (s + t)[j] == Exp(k + j);
    }
  }

  lemma AntilogRowIsExp(r: nat)
    requires r < 16
    ensures PowersFrom(AntilogRow(r), 16 * r)
  {
    hide PowersFrom;
    AntilogPowers();
    PowersFromPrefix(GFILOG_15, [1], 240);
  }

  /** gfilog[k] is two to the k, for the whole literal table. */
  lemma GfIlogIsExp(k: nat)
    requires k < 255
    ensures GfIlog(k) == Exp(k)
  {
    hide AntilogRow;
    AntilogRowIsExp(k / 16);
    RowSizes(k / 16);
    assert AntilogRow(k / 16)[k % 16] == Exp(16 * (k / 16) + k % 16);
  }

  lemma ExpOrder()
    ensures Exp(255) == 1
  {
    AntilogPowers();
    assert |GFILOG_15 + [1]| == 16 && (GFILOG_15 + [1])[15] == Exp(240 + 15);
  }

  // ----- The log table follows doubling -----

  /** One more, in the exponents modulo 255. */
  function Next(k: Exponent): (e: Exponent) {
    if k == 254 then 0 else k + 1
  }

  /** The rows t, u of the doubles of row s, when doubling does not reduce. */
  predicate Shifted(s: seq<Exponent>, t: seq<Exponent>, u: seq<Exponent>) {
    && |s| == |t| == |u| == 16
    && t[2] == Next(s[1]) && t[4] == Next(s[2]) && t[6] == Next(s[3]) && t[8] == Next(s[4])
    && t[10] == Next(s[5]) && t[12] == Next(s[6]) && t[14] == Next(s[7]) && u[0] == Next(s[8])
    && u[2] == Next(s[9]) && u[4] == Next(s[10]) && u[6] == Next(s[11]) && u[8] == Next(s[12])
    && u[10] == Next(s[13]) && u[12] == Next(s[14]) && u[14] == Next(s[15])
  }

  /** The same when doubling reduces: the columns are exchanged by 0x0d. */
  predicate Reduced(s: seq<Exponent>, t: seq<Exponent>, u: seq<Exponent>) {
    && |s| == |t| == |u| == 16
    && t[13] == Next(s[0]) && t[15] == Next(s[1]) && t[9] == Next(s[2]) && t[11] == Next(s[3])
    && t[5] == Next(s[4]) && t[7] == Next(s[5]) && t[1] == Next(s[6]) && t[3] == Next(s[7])
    && u[13] == Next(s[8]) && u[15] == Next(s[9]) && u[9] == Next(s[10]) && u[11] == Next(s[11])
    && u[5] == Next(s[12]) && u[7] == Next(s[13]) && u[1] == Next(s[14]) && u[3] == Next(s[15])
  }

  /** Row r of gflog, the last row closed by the entry that the literal lacks: 255 is 2^175. */
  function ClosedLogRow(r: nat): (row: seq<Exponent>) {
    if r == 15 then LogRow(r) + [175] else LogRow(r)
  }

  lemma LogRowsShift()
    ensures Shifted(GFLOG_0, GFLOG_0, GFLOG_1)
    ensures Shifted(GFLOG_1, GFLOG_2, GFLOG_3) && GFLOG_2[0] == Next(GFLOG_1[0])
    ensures Shifted(GFLOG_2, GFLOG_4, GFLOG_5) && GFLOG_4[0] == Next(GFLOG_2[0])
    ensures Shifted(GFLOG_3, GFLOG_6, GFLOG_7) && GFLOG_6[0] == Next(GFLOG_3[0])
    ensures Shifted(GFLOG_4, GFLOG_8, GFLOG_9) && GFLOG_8[0] == Next(GFLOG_4[0])
    ensures Shifted(GFLOG_5, GFLOG_10, GFLOG_11) && GFLOG_10[0] == Next(GFLOG_5[0])
    ensures Shifted(GFLOG_6, GFLOG_12, GFLOG_13) && GFLOG_12[0] == Next(GFLOG_6[0])
    ensures Shifted(GFLOG_7, GFLOG_14, GFLOG_15 + [175]) && GFLOG_14[0] == Next(GFLOG_7[0])
  {}

  lemma LogRowsReduce()
    ensures Reduced(GFLOG_8, GFLOG_1, GFLOG_0)
    ensures Reduced(GFLOG_9, GFLOG_3, GFLOG_2)
    ensures Reduced(GFLOG_10, GFLOG_5, GFLOG_4)
    ensures Reduced(GFLOG_11, GFLOG_7, GFLOG_6)
    ensures Reduced(GFLOG_12, GFLOG_9, GFLOG_8)
    ensures Reduced(GFLOG_13, GFLOG_11, GFLOG_10)
    ensures Reduced(GFLOG_14, GFLOG_13, GFLOG_12)
    ensures Reduced(GFLOG_15 + [175], GFLOG_15 + [175], GFLOG_14)
  {}

  lemma ShiftedAt(s: seq<Exponent>, t: seq<Exponent>, u: seq<Exponent>, c: nat)
    requires Shifted(s, t, u) && 0 < c < 16
    ensures (if c < 8 then t[2 * c] else u[2 * c - 16]) == Next(s[c])
  {
    hide Next;
    if c <= 3 {
    } else if c <= 7 {
    } else if c <= 11 {
    } else {
    }
  }

  /** Exclusive or with 13 of an even number below 16. */
  function Flip13(x: nat): (y: nat)
    requires x < 16 && x % 2 == 0
    ensures y < 16
  {
    if x % 4 == 0 then 13 - x else 17 - x
  }

  lemma ReducedAt(s: seq<Exponent>, t: seq<Exponent>, u: seq<Exponent>, c: nat)
    requires Reduced(s, t, u) && c < 16
    ensures (if c < 8 then t[Flip13(2 * c)] else u[Flip13(2 * c - 16)]) == Next(s[c])
  {
    hide Next;
    if c <= 3 {
    } else if c <= 7 {
    } else if c <= 11 {
    } else {
    }
  }

  lemma RowShifted(r: nat)
    requires r < 8
    ensures Shifted(ClosedLogRow(r), ClosedLogRow(2 * r), ClosedLogRow(2 * r + 1))
    ensures r > 0 ==> ClosedLogRow(2 * r)[0] == Next(ClosedLogRow(r)[0])
  {
    hide Shifted, Next;
    LogRowsShift();
  }

  lemma RowReduced(r: nat)
    requires 8 <= r < 16
    ensures Reduced(ClosedLogRow(r), ClosedLogRow(2 * r - 15), ClosedLogRow(2 * r - 16))
  {
    hide Reduced, Next;
    LogRowsReduce();
  }
}
