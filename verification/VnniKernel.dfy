/** The M = 1 kernels of q8_0 and q4_0 weights over a whole packed matrix. */
module VnniKernel {
  import opened Tables
  import opened VnniPack
  import opened VnniDot

  datatype Quant = Q80 | Q40

  /** Bytes of quants in a block of 32. */
  function Width(q: Quant): nat {
    if q.Q80? then 32 else 16
  }

  predicate Good(q: Quant, b: seq<Block>) {
    forall i :: 0 <= i < |b| ==> |b[i].qs| == Width(q)
  }

  /** The integer dot product of a block of activations and a block of weights. */
  function BlockDot(q: Quant, a: Bytes, b: Bytes): int
    requires |a| == 32 && |b| == Width(q)
  {
    if q.Q80? then Dot(a, b, 32) else Dot4(a, b, 32)
  }

  function QuantsOf(rows: seq<Block>): (r: seq<Bytes>)
    ensures |r| == |rows|
  {
    seq(|rows|, n requires 0 <= n < |rows| => rows[n].qs)
  }

  /** A packed tile: registers of quants, the rows' scales and, for q8_0, the compensation. */
  ghost predicate TileOf(q: Quant, t: Tile, rows: seq<Block>)
    requires |rows| == 16 && Good(q, rows)
  {
    if q.Q80? then Tile8Of(t, rows)
    else Packed40(t.quants, QuantsOf(rows)) && |t.d| == 16 && forall n :: 0 <= n < 16 ==> t.d[n] == rows[n].d
  }

  /** pack_B of either format. */
  method PackB(q: Quant, rows: seq<Block>) returns (t: Tile)
    requires |rows| == 16 && Good(q, rows)
    ensures TileOf(q, t, rows)
  {
    match q {
      case Q80 =>
        t := PackB8(rows);
      case Q40 =>
        var quants := PackQ40(QuantsOf(rows));
        t := Tile(quants, seq(16, n requires 0 <= n < 16 => rows[n].d), []);
    }
  }

  method BlockSums(q: Quant, a: Bytes, t: Tile, ghost rows: seq<Block>) returns (vsum: seq<int>)
    requires |a| == 32 && |rows| == 16 && Good(q, rows) && TileOf(q, t, rows)
    ensures |vsum| == 16 && forall n :: 0 <= n < 16 ==> vsum[n] == BlockDot(q, a, rows[n].qs)
  {
    hide Tile8Of, Packed40, Dot, Dot4;
    match q {
      case Q80 => vsum := BlockSums8(a, t, rows);
      case Q40 => vsum := BlockSums4(a, t.quants, QuantsOf(rows));
    }
  }

  /** Block k of row n of a matrix with KB blocks per row. */
  function BlockAt(B: seq<Block>, KB: nat, NB: nat, n: nat, k: nat): (b: Block)
    requires |B| == Area(16 * NB, KB) && n < 16 * NB && k < KB
    ensures forall q :: Good(q, B) ==> |b.qs| == Width(q)
  {
    FlatBound(n, k, KB, 16 * NB);
    B[Flat(n, k, KB)]
  }

  /** Rows 16 * nb to 16 * nb + 15 of block column k of a matrix with KB blocks per row. */
  function TileRows(B: seq<Block>, KB: nat, NB: nat, nb: nat, k: nat): (rows: seq<Block>)
    requires |B| == Area(16 * NB, KB) && nb < NB && k < KB
    ensures |rows| == 16
  {
    seq(16, n requires 0 <= n < 16 => BlockAt(B, KB, NB, 16 * nb + n, k))
  }

  lemma GoodRows(q: Quant, B: seq<Block>, KB: nat, NB: nat, nb: nat, k: nat)
    requires |B| == Area(16 * NB, KB) && nb < NB && k < KB && Good(q, B)
    ensures Good(q, TileRows(B, KB, NB, nb, k))
  {
    hide Area, Flat;
    forall i | 0 <= i < 16 ensures |TileRows(B, KB, NB, nb, k)[i].qs| == Width(q) {
      assert TileRows(B, KB, NB, nb, k)[i] == BlockAt(B, KB, NB, 16 * nb + i, k);
    }
  }

  ghost predicate PackedAs(q: Quant, tiles: seq<Tile>, B: seq<Block>, KB: nat, NB: nat) {
    && |B| == Area(16 * NB, KB) && Good(q, B) && |tiles| == Area(NB, KB)
    && forall nb, k :: 0 <= nb < NB && 0 <= k < KB ==> TileAt(q, tiles, B, KB, NB, nb, k)
  }

  ghost predicate TileAt(q: Quant, tiles: seq<Tile>, B: seq<Block>, KB: nat, NB: nat, nb: nat, k: nat)
    requires |B| == Area(16 * NB, KB) && Good(q, B) && nb < NB && k < KB
  {
    GoodRows(q, B, KB, NB, nb, k);
    Flat(nb, k, KB) < |tiles| && TileOf(q, tiles[Flat(nb, k, KB)], TileRows(B, KB, NB, nb, k))
  }

  /** convert_B_packed_format: tile (nb, k) goes to slot nb * KB + k. */
  method ConvertB(q: Quant, B: seq<Block>, KB: nat, NB: nat) returns (tiles: seq<Tile>)
    requires |B| == Area(16 * NB, KB) && Good(q, B)
    ensures PackedAs(q, tiles, B, KB, NB)
  {
    hide TileOf, TileRows;
    tiles := [];
    for nb := 0 to NB
      invariant |tiles| == nb * KB
      invariant forall c, k :: 0 <= c < nb && 0 <= k < KB ==> TileAt(q, tiles, B, KB, NB, c, k)
    {
      for k := 0 to KB
        invariant |tiles| == nb * KB + k
        invariant forall c, l :: 0 <= c < nb && 0 <= l < KB ==> TileAt(q, tiles, B, KB, NB, c, l)
        invariant forall l :: 0 <= l < k ==> TileAt(q, tiles, B, KB, NB, nb, l)
      {
        ghost var before := tiles;
        GoodRows(q, B, KB, NB, nb, k);
        var t := PackB(q, TileRows(B, KB, NB, nb, k));
        tiles := tiles + [t];
        forall c, l | 0 <= c <= nb && 0 <= l < KB && (c < nb || l < k) ensures TileAt(q, tiles, B, KB, NB, c, l) {
          assert TileAt(q, before, B, KB, NB, c, l);
        }
      }
    }
  }

  /** Where tile (n, k) starts; `bytes` is sizeof of a block plus what is stored beside it. */
  function Slot(n: nat, k: nat, KB: nat, bytes: nat): nat {
    Area(Flat(n, k, KB), 16 * bytes)
  }

  predicate InSlot(n: nat, k: nat, KB: nat, bytes: nat, p: nat) {
    Slot(n, k, KB, bytes) <= p < Slot(n, k, KB, bytes) + 16 * bytes
  }

  /** Slots of different tiles do not overlap and stay inside N rows of row_size bytes. */
  lemma TileSlots(NB: nat, KB: nat, bytes: nat, n: nat, k: nat, n': nat, k': nat)
    requires n < NB && n' < NB && k < KB && k' < KB
    ensures Slot(n, k, KB, bytes) + 16 * bytes <= (16 * NB) * (KB * bytes)
    ensures (n, k) == (n', k') || Slot(n, k, KB, bytes) + 16 * bytes <= Slot(n', k', KB, bytes)
      || Slot(n', k', KB, bytes) + 16 * bytes <= Slot(n, k, KB, bytes)
  {
    FlatBound(n, k, KB, NB);
    FlatInjective(n, k, n', k', KB);
    AllBytes(NB, KB, bytes);
    hide Flat;
    var x, x' := Flat(n, k, KB), Flat(n', k', KB);
    AreaAdd(x, 1, 16 * bytes);
    AreaAdd(x', 1, 16 * bytes);
    AreaLe(x + 1, Area(NB, KB), 16 * bytes);
    AreaLe(x + 1, x', 16 * bytes);
    AreaLe(x' + 1, x, 16 * bytes);
  }

  lemma AllBytes(NB: nat, KB: nat, bytes: nat)
    ensures Area(Area(NB, KB), 16 * bytes) == (16 * NB) * (KB * bytes)
  {
    assert NB * KB * (16 * bytes) == (16 * NB) * (KB * bytes);
  }

  /** Together they fill those bytes: every one of them lies in the slot of exactly one tile. */
  lemma SlotsFill(NB: nat, KB: nat, bytes: nat, p: nat) returns (n: nat, k: nat)
    requires p < (16 * NB) * (KB * bytes)
    ensures n < NB && k < KB && InSlot(n, k, KB, bytes, p)
    ensures forall n': nat, k': nat :: n' < NB && k' < KB && InSlot(n', k', KB, bytes, p) ==> n' == n && k' == k
  {
    AllBytes(NB, KB, bytes);
    Unflat(p, 16 * bytes, Area(NB, KB));
    var x := p / (16 * bytes);
    Unflat(x, KB, NB);
    n, k := x / KB, x % KB;
    assert InSlot(n, k, KB, bytes, p);
    hide Area, Flat;
    forall n': nat, k': nat | n' < NB && k' < KB && InSlot(n', k', KB, bytes, p)
      ensures n' == n && k' == k
    {
      TileSlots(NB, KB, bytes, n, k, n', k');
    }
  }

  // ----- The kernel.

  /** The product of the single row A with weight row `row`, over its first n blocks. */
  function RowSum(q: Quant, A: seq<Block>, B: seq<Block>, KB: nat, NB: nat, row: nat, n: nat): real
    requires |A| == KB && Good(Q80, A) && |B| == Area(16 * NB, KB) && Good(q, B) && row < 16 * NB && n <= KB
  {
    if n == 0 then 0.0 else
    var b := BlockAt(B, KB, NB, row, n - 1);
    RowSum(q, A, B, KB, NB, row, n - 1) + BlockDot(q, A[n - 1].qs, b.qs) as real * (b.d * A[n - 1].d)
  }

  ghost predicate ColumnSums(q: Quant, vc: seq<seq<real>>, A: seq<Block>, B: seq<Block>, KB: nat, NB: nat, col: nat, n: nat)
    requires |A| == KB && Good(Q80, A) && |B| == Area(16 * NB, KB) && Good(q, B) && n <= KB
  {
    && col < NB && col < |vc| && |vc[col]| == 16
    && forall l :: 0 <= l < 16 ==> vc[col][l] == RowSum(q, A, B, KB, NB, 16 * col + l, n)
  }

  /** One tile's fused multiply-add. */
  method FmaColumn(q: Quant, vc: seq<real>, vsum: seq<int>, d: seq<real>, d1: real, ghost A: seq<Block>, ghost B: seq<Block>,
                   ghost KB: nat, ghost NB: nat, ghost col: nat, ghost i: nat) returns (r: seq<real>)
    requires |A| == KB && Good(Q80, A) && |B| == Area(16 * NB, KB) && Good(q, B) && i < KB && col < NB
    requires |vc| == |vsum| == |d| == 16 && d1 == A[i].d && forall l :: 0 <= l < 16 ==> vc[l] == RowSum(q, A, B, KB, NB, 16 * col + l, i)
    requires forall l :: 0 <= l < 16 ==> d[l] == BlockAt(B, KB, NB, 16 * col + l, i).d
    requires forall l :: 0 <= l < 16 ==> vsum[l] == BlockDot(q, A[i].qs, BlockAt(B, KB, NB, 16 * col + l, i).qs)
    ensures |r| == 16 && forall l :: 0 <= l < 16 ==> r[l] == RowSum(q, A, B, KB, NB, 16 * col + l, i + 1)
  {
    hide Area, BlockDot, BlockAt;
    r := seq(16, l requires 0 <= l < 16 => vsum[l] as real * (d[l] * d1) + vc[l]);
    ghost var i1 := i + 1;
    forall l | 0 <= l < 16 ensures r[l] == RowSum(q, A, B, KB, NB, 16 * col + l, i1) {
      var row := 16 * col + l;
      assert RowSum(q, A, B, KB, NB, row, i1) == RowSum(q, A, B, KB, NB, row, i)
        + BlockDot(q, A[i].qs, BlockAt(B, KB, NB, row, i).qs) as real * (BlockAt(B, KB, NB, row, i).d * A[i].d);
    }
  }

  /** tinygemm_kernel_vnni for q8_0 activations, M = 1: C = A * B^T, the integer part of each block exact. */
  method Kernel(q: Quant, A: seq<Block>, tiles: seq<Tile>, KB: nat, NB: nat, ghost B: seq<Block>) returns (C: seq<real>)
    requires |A| == KB && Good(Q80, A) && PackedAs(q, tiles, B, KB, NB)
    ensures |C| == 16 * NB && forall row :: 0 <= row < 16 * NB ==> C[row] == RowSum(q, A, B, KB, NB, row, KB)
  {
    hide Area, BlockDot, TileOf, RowSum, BlockAt, TileRows;
    var vc := seq(NB, _ => seq(16, _ => 0.0));
    forall col | 0 <= col < NB ensures ColumnSums(q, vc, A, B, KB, NB, col, 0) { NothingSummed(q, vc, A, B, KB, NB, col); }
    for i := 0 to KB
      invariant |vc| == NB && forall col :: 0 <= col < NB ==> ColumnSums(q, vc, A, B, KB, NB, col, i)
    {
      var a := A[i];
      ghost var i1 := i + 1;
      for col := 0 to NB
        invariant |vc| == NB && forall c :: 0 <= c < col ==> ColumnSums(q, vc, A, B, KB, NB, c, i1)
        invariant forall c :: col <= c < NB ==> ColumnSums(q, vc, A, B, KB, NB, c, i)
      {
        assert TileAt(q, tiles, B, KB, NB, col, i) && ColumnSums(q, vc, A, B, KB, NB, col, i);
        GoodRows(q, B, KB, NB, col, i);
        var t := tiles[col * KB + i];
        var vsum := BlockSums(q, a.qs, t, TileRows(B, KB, NB, col, i));
        TileMeans(q, t, B, KB, NB, col, i);
        var r := FmaColumn(q, vc[col], vsum, t.d, a.d, A, B, KB, NB, col, i);
        ghost var before := vc;
        vc := vc[col := r];
        forall c | 0 <= c <= col ensures ColumnSums(q, vc, A, B, KB, NB, c, i1) {
          assert c < col ==> ColumnSums(q, before, A, B, KB, NB, c, i1);
        }
        forall c | col < c < NB ensures ColumnSums(q, vc, A, B, KB, NB, c, i) {
          assert ColumnSums(q, before, A, B, KB, NB, c, i);
        }
      }
    }
    C := [];
    for col := 0 to NB
      invariant |C| == 16 * col && forall row :: 0 <= row < 16 * col ==> C[row] == RowSum(q, A, B, KB, NB, row, KB)
    {
      assert ColumnSums(q, vc, A, B, KB, NB, col, KB);
      C := C + vc[col];
    }
  }

  lemma NothingSummed(q: Quant, vc: seq<seq<real>>, A: seq<Block>, B: seq<Block>, KB: nat, NB: nat, col: nat)
    requires |A| == KB && Good(Q80, A) && |B| == Area(16 * NB, KB) && Good(q, B) && col < NB && vc == seq(NB, _ => seq(16, _ => 0.0))
    ensures ColumnSums(q, vc, A, B, KB, NB, col, 0)
  {
  }

  lemma TileMeans(q: Quant, t: Tile, B: seq<Block>, KB: nat, NB: nat, col: nat, i: nat)
    requires |B| == Area(16 * NB, KB) && Good(q, B) && col < NB && i < KB && Good(q, TileRows(B, KB, NB, col, i))
    requires TileOf(q, t, TileRows(B, KB, NB, col, i))
    ensures |t.d| == 16
    ensures forall l :: 0 <= l < 16 ==> TileRows(B, KB, NB, col, i)[l] == BlockAt(B, KB, NB, 16 * col + l, i)
    ensures forall l :: 0 <= l < 16 ==> t.d[l] == BlockAt(B, KB, NB, 16 * col + l, i).d
  {
  }
}
