/** The CUDA encoder: how the host cuts the buffers into blocks for the card, and the P half of what it computes. */
module CudaTiling {
  import opened GF256
  import opened Words
  import opened Syndrome
  import opened Encoder

  /** DMA_BLOCKSIZE */
  const B: nat := 524288

  // ----- The blocks of a call -----

  datatype Tile = Tile(off: nat, len: nat)

  predicate In(t: Tile, o: nat) {
    t.off <= o < t.off + t.len
  }

  function Hits(tiles: seq<Tile>, o: nat): (hits: nat) {
    if |tiles| == 0 then 0
    else Hits(tiles[..|tiles| - 1], o) + if In(tiles[|tiles| - 1], o) then 1 else 0
  }

  /** The blocks of the main loop, two a round. */
  function PairTiles(rounds: nat): (tiles: seq<Tile>) {
    if rounds == 0 then []
    else PairTiles(rounds - 1) + [Tile((rounds - 1) * 2 * B, B)] + [Tile((rounds - 1) * 2 * B + B, B)]
  }

  /** All blocks: the offset of the last one is a multiple of B by the loop counter, which counts pairs unless the
      middle phase has doubled it. */
  function Tiles(bytes: nat): (tiles: seq<Tile>) {
    var runs := bytes / (2 * B);
    var carry := bytes - runs * 2 * B;
    var middle := if carry >= B then PairTiles(runs) + [Tile(runs * 2 * B, B)] else PairTiles(runs);
    var j := if carry >= B then runs * 2 + 1 else runs;
    var rest := if carry >= B then carry - B else carry;
    if rest > 0 then middle + [Tile(j * B, rest)] else middle
  }

  /** The blocks cover the buffers. */
  predicate Covers(bytes: nat) {
    bytes / (2 * B) == 0 || bytes % (2 * B) == 0 || bytes % (2 * B) >= B
  }

  lemma HitsSnoc(tiles: seq<Tile>, t: Tile, o: nat)
    ensures Hits(tiles + [t], o) == Hits(tiles, o) + if In(t, o) then 1 else 0
  {
    assert (tiles + [t])[..|tiles|] == tiles;
  }

  lemma {:induction false} PairHits(rounds: nat, o: nat)
    ensures Hits(PairTiles(rounds), o) == if o < rounds * 2 * B then 1 else 0
  {
    if rounds > 0 {
      PairHits(rounds - 1, o);
      var base := (rounds - 1) * 2 * B;
      HitsSnoc(PairTiles(rounds - 1), Tile(base, B), o);
      HitsSnoc(PairTiles(rounds - 1) + [Tile(base, B)], Tile(base + B, B), o);
    }
  }

  /** How often each offset is written: once, or, with a short rest after full rounds, the rest lands on offsets
      already written and the end of the buffers is never written. */
  lemma TilesHit(bytes: nat, o: nat)
    ensures Covers(bytes) ==> Hits(Tiles(bytes), o) == if o < bytes then 1 else 0
    ensures !Covers(bytes) ==>
              var runs := bytes / (2 * B);
              var carry := bytes - runs * 2 * B;
              Hits(Tiles(bytes), o)
              == (if o < runs * 2 * B then 1 else 0) + (if runs * B <= o < runs * B + carry then 1 else 0)
  {
    hide Hits, PairTiles;
    var runs := bytes / (2 * B);
    var carry := bytes - runs * 2 * B;
    assert carry == bytes % (2 * B);
    PairHits(runs, o);
    if carry >= B {
      HitsSnoc(PairTiles(runs), Tile(runs * 2 * B, B), o);
      HitsSnoc(PairTiles(runs) + [Tile(runs * 2 * B, B)], Tile((runs * 2 + 1) * B, carry - B), o);
    } else {
      HitsSnoc(PairTiles(runs), Tile(runs * B, carry), o);
    }
  }

  /** Every offset is written exactly once exactly when there are no full rounds, no rest, or a rest of a block at
      least. */
  lemma WrittenOnceExactly(bytes: nat)
    ensures (forall o :: 0 <= o < bytes ==> Hits(Tiles(bytes), o) == 1) <==> Covers(bytes)
  {
    hide Hits, Tiles, Covers;
    forall o: nat
      ensures Covers(bytes) && o < bytes ==> Hits(Tiles(bytes), o) == 1
    {
      TilesHit(bytes, o);
    }
    if !Covers(bytes) {
      NotCovered(bytes);
      TilesHit(bytes, bytes - 1);
    }
  }

  lemma NotCovered(bytes: nat)
    requires !Covers(bytes)
    ensures bytes > 0 && bytes / (2 * B) * 2 * B <= bytes - 1
    ensures bytes / (2 * B) * B + (bytes - bytes / (2 * B) * 2 * B) <= bytes - 1
  {}

  /** What the check disks hold after the blocks were written: P at every offset hit, and nothing changed elsewhere. */
  predicate Tiled(data: seq<seq<bv8>>, p: seq<bv8>, q: seq<bv8>, p0: seq<bv8>, q0: seq<bv8>, tiles: seq<Tile>) {
    && |p| == |p0| && |q| == |q0|
    && (forall o :: 0 <= o < |p| ==>
          if Hits(tiles, o) > 0 then (forall z :: 0 <= z < |data| ==> o < |data[z]|) && p[o] == PByte(Column(data, o))
          else p[o] == p0[o])
    && forall o :: 0 <= o < |q| && Hits(tiles, o) == 0 ==> q[o] == q0[o]
  }

  /** The assembled P is the parity of the data disks in the covered cases; in the others the tail of P is what it was,
      so P is right only if that was right by accident. */
  lemma TiledParityExactly(data: seq<seq<bv8>>, p: seq<bv8>, q: seq<bv8>, p0: seq<bv8>, q0: seq<bv8>, bytes: nat)
    requires Tiled(data, p, q, p0, q0, Tiles(bytes)) && bytes <= |p|
    requires forall z :: 0 <= z < |data| ==> bytes <= |data[z]|
    ensures (forall o :: 0 <= o < bytes ==> p[o] == PByte(Column(data, o)))
       <==> Covers(bytes) || (forall o :: bytes / (2 * B) * 2 * B <= o < bytes ==> p0[o] == PByte(Column(data, o)))
  {
    hide Hits, Tiles, Covers, PByte;
    var full := bytes / (2 * B) * 2 * B;
    forall o | 0 <= o < bytes
      ensures Covers(bytes) || o < full ==> p[o] == PByte(Column(data, o))
      ensures !Covers(bytes) && full <= o ==> p[o] == p0[o]
    {
      TilesHit(bytes, o);
      if !Covers(bytes) {
        NotCovered(bytes);
        RestBeforeTail(bytes);
      }
    }
  }

  /** Whatever the disks hold before, P is right afterwards. */
  ghost predicate AlwaysRight(bytes: nat) {
    forall data, p, q, p0, q0 | Tiled(data, p, q, p0, q0, Tiles(bytes)) && bytes <= |p| && AtLeastLong(data, bytes) ::
      ParityRight(data, p, bytes)
  }

  predicate AtLeastLong(data: seq<seq<bv8>>, bytes: nat) {
    forall z :: 0 <= z < |data| ==> bytes <= |data[z]|
  }

  predicate ParityRight(data: seq<seq<bv8>>, p: seq<bv8>, bytes: nat)
    requires bytes <= |p| && AtLeastLong(data, bytes)
  {
    forall o :: 0 <= o < bytes ==> p[o] == PByte(Column(data, o))
  }

  function Constant(n: nat, b: bv8): (s: seq<bv8>)
    ensures |s| == n
  {
    seq(n, _ => b)
  }

  /** P after the blocks of a call on one data disk of zeros, when it held ones. */
  function AfterOnes(bytes: nat): (p: seq<bv8>)
    ensures |p| == bytes
  {
    seq(bytes, o requires 0 <= o < bytes => if Hits(Tiles(bytes), o) > 0 then 0 else 1)
  }

  lemma OnesTiled(bytes: nat, q: seq<bv8>)
    requires |q| == bytes
    ensures Tiled([Constant(bytes, 0)], AfterOnes(bytes), q, Constant(bytes, 1), q, Tiles(bytes))
  {
    hide Hits, Tiles;
    forall o | 0 <= o < bytes
      ensures PByte(Column([Constant(bytes, 0)], o)) == 0
    {
      ZeroParity(Column([Constant(bytes, 0)], o));
    }
  }

  lemma ZeroParity(column: seq<bv8>)
    requires column == [0]
    ensures PByte(column) == 0
  {
    assert column[..0] == [];
    assert PByte(column) == Add(PByte([]), 0);
  }

  /** P is the parity of the data disks, whatever they and the check disks held, exactly in the covered cases. */
  lemma AlwaysRightExactly(bytes: nat)
    ensures AlwaysRight(bytes) <==> Covers(bytes)
  {
    hide Hits, Tiles, Covers, PByte;
    if Covers(bytes) {
      forall data, p, q, p0, q0 | Tiled(data, p, q, p0, q0, Tiles(bytes)) && bytes <= |p| && AtLeastLong(data, bytes)
        ensures ParityRight(data, p, bytes)
      {
        TiledParityExactly(data, p, q, p0, q0, bytes);
      }
    } else {
      var data, p, q := [Constant(bytes, 0)], AfterOnes(bytes), Constant(bytes, 0);
      OnesTiled(bytes, q);
      NotCovered(bytes);
      RestBeforeTail(bytes);
      TilesHit(bytes, bytes - 1);
      ZeroParity(Column(data, bytes - 1));
      assert p[bytes - 1] != PByte(Column(data, bytes - 1));
      assert !ParityRight(data, p, bytes);
    }
  }

  /** The first such size: a full round and one byte. */
  lemma SmallestUncovered()
    ensures !Covers(2 * B + 1) && forall bytes: nat :: bytes <= 2 * B ==> Covers(bytes)
  {}

  lemma RestBeforeTail(bytes: nat)
    requires !Covers(bytes)
    ensures bytes / (2 * B) * B + (bytes - bytes / (2 * B) * 2 * B) <= bytes / (2 * B) * 2 * B
  {}

  // ----- The card -----

  /** cudaMemcpy */
  method Memcpy(to: array<bv8>, toOff: nat, from: array<bv8>, fromOff: nat, n: nat)
    requires toOff + n <= to.Length && fromOff + n <= from.Length && to != from
    modifies to
    ensures forall o :: 0 <= o < to.Length ==> to[o] == if toOff <= o < toOff + n then from[fromOff + o - toOff]
            else old(to[o])
  {
    var k := 0;
    while k < n
      invariant 0 <= k <= n
      invariant forall o :: 0 <= o < to.Length ==> to[o] == if toOff <= o < toOff + k then from[fromOff + o - toOff]
                else old(to[o])
    {
      to[toOff + k] := from[fromOff + k];
      k := k + 1;
    }
  }

  /** The rows of the linear device buffer: one of length B for each data disk. */
  function Rows(dp: seq<bv8>, n: nat): (rows: seq<seq<bv8>>)
    requires n * B <= |dp|
    ensures |rows| == n && forall z :: 0 <= z < n ==> |rows[z]| == B
  {
    seq(n, z requires 0 <= z < n => dp[z * B..z * B + B])
  }

  /** Each row starts with the bytes of its disk from `off` on. */
  predicate Loaded(rows: seq<seq<bv8>>, data: seq<seq<bv8>>, off: nat, len: nat) {
    && |rows| == |data|
    && forall z :: 0 <= z < |rows| ==>
         len <= |rows[z]| && off + len <= |data[z]| && rows[z][..len] == data[z][off..off + len]
  }

  lemma LoadedColumn(rows: seq<seq<bv8>>, data: seq<seq<bv8>>, off: nat, len: nat, k: nat)
    requires Loaded(rows, data, off, len) && k < len
    ensures (forall z :: 0 <= z < |rows| ==> k < |rows[z]|) && (forall z :: 0 <= z < |data| ==> off + k < |data[z]|)
    ensures Column(rows, k) == Column(data, off + k)
  {
    forall z | 0 <= z < |rows|
      ensures rows[z][k] == data[z][off + k]
    {
      assert rows[z][..len][k] == data[z][off..off + len][k];
    }
  }

  /** The words of P that the thread with offset d has to write. */
  predicate WordDone(rows: seq<seq<bv8>>, pq: seq<bv8>, d: nat) {
    && d + 8 <= |pq| && (forall z :: 0 <= z < |rows| ==> d + 8 <= |rows[z]|)
    && forall i :: d <= i < d + 8 ==> pq[i] == PByte(Column(rows, i))
  }

  /** One thread of `syndrome_block`: its word of P; nothing is said of its word of Q. */
  method ThreadWord(dp: array<bv8>, pq: array<bv8>, z0: nat, d: nat)
    requires dp.Length == 256 * B && pq.Length == 2 * B && dp != pq && z0 < 256 && d + 8 <= B
    modifies pq
    ensures WordDone(Rows(dp[..], z0 + 1), pq[..], d)
    ensures forall o :: 0 <= o < B && !(d <= o < d + 8) ==> pq[o] == old(pq[o])
  {
    hide Folded, Checks, Load, Rows, PByte, WordDone;
    ghost var rows := Rows(dp[..], z0 + 1);
    RowWord(dp[..], z0 + 1, z0, d);
    var wp0 := Load(dp[z0 * B + d..z0 * B + d + 8]);
    FoldFirst(rows, d, 8);
    ghost var wq0 := wp0;
    var z := z0 - 1;
    while z >= 0
      invariant -1 <= z < z0 && wp0.Size() == wq0.Size() == 8
      invariant Folded(rows, d, z + 1, wp0, wq0)
      invariant pq[..] == old(pq[..])
    {
      RowWord(dp[..], z0 + 1, z, d);
      var wd0 := Load(dp[z * B + d..z * B + d + 8]);
      FoldNext(rows, d, z, wp0, wq0, wd0);
      wq0 := HornerWord(wq0, wd0);
      wp0 := XorWord(wp0, wd0);
      z := z - 1;
    }
    FoldedAll(rows, d, wp0, wq0);
    StoreWord(pq, d, wp0);
    ghost var p := pq[..];
    StoreAnything(pq, B + d);
    WordStored(rows, d, wp0, wq0, p, pq[..]);
  }

  lemma RowWord(dp: seq<bv8>, n: nat, z: nat, d: nat)
    requires z < n && n * B <= |dp| && d + 8 <= B
    ensures z * B + d + 8 <= |dp|
    ensures Rows(dp, n)[z][d..d + 8] == dp[z * B + d..z * B + d + 8]
  {
    var row, start := dp[z * B..z * B + B], z * B + d;
    var word, bytes := row[d..d + 8], dp[start..start + 8];
    forall i | 0 <= i < 8
      ensures word[i] == bytes[i]
    {
      assert row[d + i] == dp[start + i];
    }
  }

  method StoreAnything(pq: array<bv8>, d: nat)
    requires d + 8 <= pq.Length
    modifies pq
    ensures forall o :: 0 <= o < pq.Length && !(d <= o < d + 8) ==> pq[o] == old(pq[o])
  {
    var i := 0;
    while i < 8
      invariant 0 <= i <= 8
      invariant forall o :: 0 <= o < pq.Length && !(d <= o < d + 8) ==> pq[o] == old(pq[o])
    {
      pq[d + i] := *;
      i := i + 1;
    }
  }

  lemma WordStored(rows: seq<seq<bv8>>, d: nat, wp: Word, wq: Word, p: seq<bv8>, p': seq<bv8>)
    requires Checks(rows, d, wp, wq) && wp.Size() == 8 && d + 8 <= |p| && |p'| == |p|
    requires forall i :: d <= i < d + 8 ==> p[i] == wp.Byte(i - d) && p'[i] == p[i]
    ensures WordDone(rows, p', d)
  {
    hide PByte;
    forall i | d <= i < d + 8
      ensures p'[i] == PByte(Column(rows, i))
    {
      assert wp.Byte(i - d) == PByte(Column(rows, d + (i - d)));
    }
  }

  function Below(n: nat): (below: set<nat>)
    ensures forall t: nat :: t in below <==> t < n
  {
    if n == 0 then {} else Below(n - 1) + {n - 1}
  }

  /** `syndrome_block` on a grid of blocks of 256 threads, in any order of the threads. */
  method SyndromeBlock(dp: array<bv8>, pq: array<bv8>, z0: nat, grid: nat)
    requires dp.Length == 256 * B && pq.Length == 2 * B && dp != pq && z0 < 256 && grid * 2048 <= B
    modifies pq
    ensures forall o :: 0 <= o < grid * 2048 ==> pq[o] == PByte(Column(Rows(dp[..], z0 + 1), o))
  {
    hide Rows, PByte, WordDone;
    ghost var rows := Rows(dp[..], z0 + 1);
    var threads := Below(grid * 256);
    var todo := threads;
    while todo != {}
      invariant todo <= threads
      invariant forall t :: t in threads && t !in todo ==> WordDone(rows, pq[..], t * 8)
      decreases |todo|
    {
      var t :| t in todo;
      ghost var before := pq[..];
      ThreadWord(dp, pq, z0, t * 8);
      forall u | u in threads && u !in todo
        ensures WordDone(rows, pq[..], u * 8)
      {
        WordKept(rows, before, pq[..], u * 8);
      }
      todo := todo - {t};
    }
    forall o | 0 <= o < grid * 2048
      ensures pq[o] == PByte(Column(rows, o))
    {
      assert o / 8 in threads;
      WordByte(rows, pq[..], o / 8 * 8, o);
    }
  }

  lemma WordKept(rows: seq<seq<bv8>>, p: seq<bv8>, p': seq<bv8>, d: nat)
    requires WordDone(rows, p, d) && |p| == |p'| && forall o :: d <= o < d + 8 ==> p'[o] == p[o]
    ensures WordDone(rows, p', d)
  {
    hide PByte;
  }

  lemma WordByte(rows: seq<seq<bv8>>, p: seq<bv8>, d: nat, o: nat)
    requires WordDone(rows, p, d) && d <= o < d + 8
    ensures forall z :: 0 <= z < |rows| ==> o < |rows[z]|
    ensures p[o] == PByte(Column(rows, o))
  {
    hide PByte;
  }

  // ----- The host -----

  /** The loop that copies `len` bytes of every data disk to the card. */
  method CopyIn(dp: array<bv8>, disks: int, ptrs: seq<array<bv8>>, off: nat, len: nat)
    requires Call(disks, ptrs) && disks - 2 <= 256 && dp.Length == 256 * B && dp !in ptrs && len <= B
    requires AtLeast(ptrs, off + len)
    modifies dp
    ensures Loaded(Rows(dp[..], disks - 2), Contents(ptrs[..disks - 2]), off, len)
  {
    hide Contents, Rows;
    var i := 0;
    while i < disks - 2
      invariant 0 <= i <= disks - 2
      invariant forall z :: 0 <= z < i ==> dp[..][z * B..z * B + len] == ptrs[z][off..off + len]
    {
      ghost var before := dp[..];
      Memcpy(dp, i * B, ptrs[i], off, len);
      forall z | 0 <= z < i
        ensures dp[..][z * B..z * B + len] == ptrs[z][off..off + len]
      {
        assert dp[..][z * B..z * B + len] == before[z * B..z * B + len];
      }
      assert dp[..][i * B..i * B + len] == ptrs[i][off..off + len];
      i := i + 1;
    }
    ghost var data := Contents(ptrs[..disks - 2]);
    forall z | 0 <= z < disks - 2
      ensures Rows(dp[..], disks - 2)[z][..len] == data[z][off..off + len]
    {
      RowHead(dp[..], disks - 2, z, len);
    }
  }

  lemma RowHead(dp: seq<bv8>, n: nat, z: nat, len: nat)
    requires z < n && n * B <= |dp| && len <= B
    ensures Rows(dp, n)[z][..len] == dp[z * B..z * B + len]
  {
    assert dp[z * B..z * B + B][..len] == dp[z * B..z * B + len];
  }

  /** The card has computed P for the `len` offsets from `off` on. */
  predicate Computed(data: seq<seq<bv8>>, pq: seq<bv8>, off: nat, len: nat) {
    && len <= |pq| && (forall z :: 0 <= z < |data| ==> off + len <= |data[z]|)
    && forall k :: 0 <= k < len ==> pq[k] == PByte(Column(data, off + k))
  }

  lemma LoadedComputed(rows: seq<seq<bv8>>, data: seq<seq<bv8>>, pq: seq<bv8>, off: nat, len: nat)
    requires Loaded(rows, data, off, len) && len <= |pq|
    requires forall o :: 0 <= o < len ==> pq[o] == PByte(Column(rows, o))
    ensures Computed(data, pq, off, len)
  {
    hide PByte;
    forall k | 0 <= k < len
      ensures pq[k] == PByte(Column(data, off + k))
    {
      LoadedColumn(rows, data, off, len, k);
    }
  }

  lemma TiledStep(data: seq<seq<bv8>>, p: seq<bv8>, q: seq<bv8>, p': seq<bv8>, q': seq<bv8>, pq: seq<bv8>,
                  p0: seq<bv8>, q0: seq<bv8>, tiles: seq<Tile>, t: Tile)
    requires Tiled(data, p, q, p0, q0, tiles) && Computed(data, pq, t.off, t.len)
    requires t.off + t.len <= |p| == |p'| && |q| == |q'|
    requires forall o :: 0 <= o < |p'| ==> p'[o] == if In(t, o) then pq[o - t.off] else p[o]
    requires forall o :: 0 <= o < |q'| && !In(t, o) ==> q'[o] == q[o]
    ensures Tiled(data, p', q', p0, q0, tiles + [t])
  {
    hide PByte, Hits;
    forall o: nat
      ensures Hits(tiles + [t], o) == Hits(tiles, o) + if In(t, o) then 1 else 0
    {
      HitsSnoc(tiles, t, o);
    }
    forall o | 0 <= o < |p'| && In(t, o)
      ensures p'[o] == PByte(Column(data, o))
    {
      assert pq[o - t.off] == PByte(Column(data, t.off + (o - t.off)));
    }
  }

  /** Copying a block of P and Q back to the check disks. */
  method CopyOut(pq: array<bv8>, disks: int, ptrs: seq<array<bv8>>, off: nat, len: nat,
                 ghost p0: seq<bv8>, ghost q0: seq<bv8>, ghost tiles: seq<Tile>)
    requires Call(disks, ptrs) && pq.Length == 2 * B && pq !in ptrs && len <= B && AtLeast(ptrs, off + len)
    requires Computed(Contents(ptrs[..disks - 2]), pq[..], off, len)
    requires Tiled(Contents(ptrs[..disks - 2]), ptrs[disks - 2][..], ptrs[disks - 1][..], p0, q0, tiles)
    modifies ptrs[disks - 2], ptrs[disks - 1]
    ensures Contents(ptrs[..disks - 2]) == old(Contents(ptrs[..disks - 2]))
    ensures Tiled(Contents(ptrs[..disks - 2]), ptrs[disks - 2][..], ptrs[disks - 1][..], p0, q0,
            tiles + [Tile(off, len)])
    ensures ptrs[disks - 1][off..off + len] == pq[B..B + len]
  {
    hide Computed, Tiled;
    ghost var data, p, q := Contents(ptrs[..disks - 2]), ptrs[disks - 2][..], ptrs[disks - 1][..];
    Memcpy(ptrs[disks - 2], off, pq, 0, len);
    Memcpy(ptrs[disks - 1], off, pq, B, len);
    TiledStep(data, p, q, ptrs[disks - 2][..], ptrs[disks - 1][..], pq[..], p0, q0, tiles, Tile(off, len));
  }

  /** Running the kernel on a loaded buffer. */
  method Launch(dp: array<bv8>, pq: array<bv8>, z0: nat, grid: nat, ghost data: seq<seq<bv8>>, ghost off: nat,
      ghost len: nat)
    requires dp.Length == 256 * B && pq.Length == 2 * B && dp != pq && z0 < 256 && len <= grid * 2048 <= B
    requires Loaded(Rows(dp[..], z0 + 1), data, off, len)
    modifies pq
    ensures Computed(data, pq[..], off, len)
  {
    hide PByte, Rows, Loaded;
    SyndromeBlock(dp, pq, z0, grid);
    LoadedComputed(Rows(dp[..], z0 + 1), data, pq[..], off, len);
  }

  /** A block through the first pair of device buffers. */
  method Block(dp: array<bv8>, pq: array<bv8>, disks: int, ptrs: seq<array<bv8>>, off: nat, len: nat, grid: nat,
               ghost p0: seq<bv8>, ghost q0: seq<bv8>, ghost tiles: seq<Tile>)
    requires Call(disks, ptrs) && disks - 2 <= 256 && AtLeast(ptrs, off + len)
    requires dp.Length == 256 * B && pq.Length == 2 * B && dp != pq && dp !in ptrs && pq !in ptrs &&
             len <= grid * 2048 <= B
    requires Tiled(Contents(ptrs[..disks - 2]), ptrs[disks - 2][..], ptrs[disks - 1][..], p0, q0, tiles)
    modifies dp, pq, ptrs[disks - 2], ptrs[disks - 1]
    ensures Contents(ptrs[..disks - 2]) == old(Contents(ptrs[..disks - 2]))
    ensures Tiled(Contents(ptrs[..disks - 2]), ptrs[disks - 2][..], ptrs[disks - 1][..], p0, q0,
            tiles + [Tile(off, len)])
  {
    hide Computed, Tiled, Loaded, Rows;
    CopyIn(dp, disks, ptrs, off, len);
    Launch(dp, pq, disks - 3, grid, Contents(ptrs[..disks - 2]), off, len);
    CopyOut(pq, disks, ptrs, off, len, p0, q0, tiles);
  }

  /** One round of the main loop: two blocks, through both pairs of device buffers. */
  method Round(dp1: array<bv8>, pq1: array<bv8>, dp2: array<bv8>, pq2: array<bv8>, disks: int, ptrs: seq<array<bv8>>,
      off: nat,
               ghost p0: seq<bv8>, ghost q0: seq<bv8>, ghost tiles: seq<Tile>)
    requires Call(disks, ptrs) && disks - 2 <= 256 && AtLeast(ptrs, off + 2 * B)
    requires dp1.Length == dp2.Length == 256 * B && pq1.Length == pq2.Length == 2 * B
    requires dp1 != pq1 && dp1 != pq2 && dp2 != pq1 && dp2 != pq2 && dp1 != dp2 && pq1 != pq2
    requires dp1 !in ptrs && dp2 !in ptrs && pq1 !in ptrs && pq2 !in ptrs
    requires Tiled(Contents(ptrs[..disks - 2]), ptrs[disks - 2][..], ptrs[disks - 1][..], p0, q0, tiles)
    modifies dp1, pq1, dp2, pq2, ptrs[disks - 2], ptrs[disks - 1]
    ensures Contents(ptrs[..disks - 2]) == old(Contents(ptrs[..disks - 2]))
    ensures Tiled(Contents(ptrs[..disks - 2]), ptrs[disks - 2][..], ptrs[disks - 1][..], p0, q0,
                  tiles + [Tile(off, B)] + [Tile(off + B, B)])
  {
    hide Computed, Tiled, Loaded, Rows;
    ghost var data := Contents(ptrs[..disks - 2]);
    CopyIn(dp1, disks, ptrs, off, B);
    CopyIn(dp2, disks, ptrs, off + B, B);
    Launch(dp1, pq1, disks - 3, 256, data, off, B);
    Launch(dp2, pq2, disks - 3, 256, data, off + B, B);
    CopyOut(pq1, disks, ptrs, off, B, p0, q0, tiles);
    CopyOut(pq2, disks, ptrs, off + B, B, p0, q0, tiles + [Tile(off, B)]);
  }

  lemma NothingTiled(data: seq<seq<bv8>>, p: seq<bv8>, q: seq<bv8>)
    ensures Tiled(data, p, q, p, q, PairTiles(0))
  {}

  lemma PairNext(j: nat)
    ensures PairTiles(j + 1) == PairTiles(j) + [Tile(j * 2 * B, B)] + [Tile(j * 2 * B + B, B)]
  {}

  /** The main loop. */
  method Rounds(dp1: array<bv8>, pq1: array<bv8>, dp2: array<bv8>, pq2: array<bv8>, disks: int, ptrs: seq<array<bv8>>,
      runs: nat)
    requires Call(disks, ptrs) && disks - 2 <= 256 && AtLeast(ptrs, runs * 2 * B)
    requires dp1.Length == dp2.Length == 256 * B && pq1.Length == pq2.Length == 2 * B
    requires dp1 != pq1 && dp1 != pq2 && dp2 != pq1 && dp2 != pq2 && dp1 != dp2 && pq1 != pq2
    requires dp1 !in ptrs && dp2 !in ptrs && pq1 !in ptrs && pq2 !in ptrs
    modifies dp1, pq1, dp2, pq2, ptrs[disks - 2], ptrs[disks - 1]
    ensures Contents(ptrs[..disks - 2]) == old(Contents(ptrs[..disks - 2]))
    ensures Tiled(Contents(ptrs[..disks - 2]), ptrs[disks - 2][..], ptrs[disks - 1][..],
                  old(ptrs[disks - 2][..]), old(ptrs[disks - 1][..]), PairTiles(runs))
  {
    hide Tiled, Contents, PairTiles;
    ghost var data, p0, q0 := Contents(ptrs[..disks - 2]), ptrs[disks - 2][..], ptrs[disks - 1][..];
    NothingTiled(data, p0, q0);
    var j := 0;
    while j < runs
      invariant 0 <= j <= runs
      invariant Contents(ptrs[..disks - 2]) == data
      invariant Tiled(data, ptrs[disks - 2][..], ptrs[disks - 1][..], p0, q0, PairTiles(j))
    {
      Round(dp1, pq1, dp2, pq2, disks, ptrs, j * 2 * B, p0, q0, PairTiles(j));
      PairNext(j);
      j := j + 1;
    }
  }

  /** The two phases after the main loop. */
  method LastBlocks(dp1: array<bv8>, pq1: array<bv8>, disks: int, bytes: nat, ptrs: seq<array<bv8>>, runs: nat,
                    ghost p0: seq<bv8>, ghost q0: seq<bv8>)
    requires Call(disks, ptrs) && disks - 2 <= 256 && AtLeast(ptrs, bytes) && runs == bytes / (2 * B)
    requires dp1.Length == 256 * B && pq1.Length == 2 * B && dp1 != pq1 && dp1 !in ptrs && pq1 !in ptrs
    requires Tiled(Contents(ptrs[..disks - 2]), ptrs[disks - 2][..], ptrs[disks - 1][..], p0, q0, PairTiles(runs))
    modifies dp1, pq1, ptrs[disks - 2], ptrs[disks - 1]
    ensures Contents(ptrs[..disks - 2]) == old(Contents(ptrs[..disks - 2]))
    ensures Tiled(Contents(ptrs[..disks - 2]), ptrs[disks - 2][..], ptrs[disks - 1][..], p0, q0, Tiles(bytes))
  {
    hide Tiled, Contents, PairTiles;
    var j := runs;
    ghost var tiles := PairTiles(runs);
    var carryOff := bytes - runs * 2 * B;
    if carryOff >= B {
      Block(dp1, pq1, disks, ptrs, j * 2 * B, B, 256, p0, q0, tiles);
      tiles := tiles + [Tile(j * 2 * B, B)];
      j := j * 2 + 1;
      carryOff := carryOff - B;
    }
    if carryOff > 0 {
      Block(dp1, pq1, disks, ptrs, j * B, carryOff, carryOff / 2048 + 1, p0, q0, tiles);
      tiles := tiles + [Tile(j * B, carryOff)];
    }
    assert tiles == Tiles(bytes);
  }

  /** `raid6_cuda_gen_syndrome_synccopy`, called once. */
  method SyncCopy(disks: int, bytes: nat, ptrs: seq<array<bv8>>)
    requires Call(disks, ptrs) && disks - 2 <= 256 && bytes < INT_LIMIT && AtLeast(ptrs, bytes)
    modifies ptrs[disks - 2], ptrs[disks - 1]
    ensures Contents(ptrs[..disks - 2]) == old(Contents(ptrs[..disks - 2]))
    ensures Tiled(Contents(ptrs[..disks - 2]), ptrs[disks - 2][..], ptrs[disks - 1][..],
                  old(ptrs[disks - 2][..]), old(ptrs[disks - 1][..]), Tiles(bytes))
  {
    hide Tiled, Contents, PairTiles, Tiles;
    var dp1, pq1 := new bv8[256 * B], new bv8[2 * B];
    var dp2, pq2 := new bv8[256 * B], new bv8[2 * B];
    ghost var p0, q0 := ptrs[disks - 2][..], ptrs[disks - 1][..];
    var runs := bytes / (2 * B);
    Rounds(dp1, pq1, dp2, pq2, disks, ptrs, runs);
    LastBlocks(dp1, pq1, disks, bytes, ptrs, runs, p0, q0);
  }
}
