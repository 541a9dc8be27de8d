/** What the M = 1 kernels compute, said of the dequantised rows. */
module VnniMeaning {
  import opened Tables
  import opened VnniDot
  import opened VnniKernel
  import opened VnniPack
  import VectorSums

  /** The number at position l of a block: a signed byte, or an unsigned nibble minus 8; the first sixteen
      elements of a q4_0 block are the low nibbles. */
  function Stored(q: Quant, b: Block, l: nat): int
    requires |b.qs| == Width(q) && l < 32
  {
    if q.Q80? then (if b.qs[l] < 0x80 then b.qs[l] as int else b.qs[l] as int - 256)
    else if l < 16 then (b.qs[l] & 0x0F) as int - 8
    else (b.qs[l - 16] >> 4) as int - 8
  }

  /** Number p of a row of blocks: what is stored there times the scale of its block. */
  function Entry(q: Quant, blocks: seq<Block>, p: nat): real
    requires Good(q, blocks) && p < 32 * |blocks|
  {
    Stored(q, blocks[p / 32], p % 32) as real * blocks[p / 32].d
  }

  lemma Position(k: nat, l: nat)
    requires l < 32
    ensures (32 * k + l) / 32 == k && (32 * k + l) % 32 == l
  {
  }

  lemma EntryAt(q: Quant, blocks: seq<Block>, k: nat, l: nat)
    requires Good(q, blocks) && k < |blocks| && l < 32
    ensures 32 * k + l < 32 * |blocks| && Entry(q, blocks, 32 * k + l) == Stored(q, blocks[k], l) as real * blocks[k].d
  {
    hide Stored, Good;
    Position(k, l);
  }

  function Dequantised(q: Quant, blocks: seq<Block>): (r: VectorSums.Vec)
    requires Good(q, blocks)
    ensures |r| == 32 * |blocks| && forall p :: 0 <= p < |r| ==> r[p] == Entry(q, blocks, p)
  {
    seq(32 * |blocks|, p requires 0 <= p < 32 * |blocks| => Entry(q, blocks, p))
  }

  /** The blocks of one row of a matrix with KB blocks per row. */
  function RowOf(B: seq<Block>, KB: nat, NB: nat, row: nat): (r: seq<Block>)
    requires |B| == Area(16 * NB, KB) && row < 16 * NB
    ensures |r| == KB && forall k :: 0 <= k < KB ==> Flat(row, k, KB) < |B| && r[k] == B[Flat(row, k, KB)]
  {
    forall k | 0 <= k < KB ensures Flat(row, k, KB) < |B| { FlatBound(row, k, KB, 16 * NB); }
    seq(KB, k requires 0 <= k < KB => B[Flat(row, k, KB)])
  }

  /** The integer dot product over the first l positions of a block. */
  function Partial(q: Quant, a: Bytes, b: Bytes, l: nat): int
    requires |a| == 32 && |b| == Width(q) && l <= 32
  {
    if q.Q80? then Dot(a, b, l) else Dot4(a, b, l)
  }

  lemma PartialStep(q: Quant, a: Block, b: Block, l: nat)
    requires |a.qs| == 32 && |b.qs| == Width(q) && l < 32
    ensures Partial(q, a.qs, b.qs, l + 1) == Partial(q, a.qs, b.qs, l) + Stored(Q80, a, l) * Stored(q, b, l)
  {
  }

  /** An integer times two scales. */
  function Times(n: int, y: real, x: real): real {
    n as real * (y * x)
  }

  lemma TimesAdd(s: int, t: int, y: real, x: real)
    ensures Times(s + t, y, x) == Times(s, y, x) + Times(t, y, x) && Times(0, y, x) == 0.0
  {
  }

  lemma Regroup(s: int, t: int, x: real, y: real)
    ensures (s as real * x) * (t as real * y) == Times(s * t, y, x)
  {
    assert (s * t) as real == s as real * t as real;
  }

  lemma EntryProduct(q: Quant, A: seq<Block>, W: seq<Block>, k: nat, l: nat)
    requires Good(Q80, A) && Good(q, W) && |A| == |W| && k < |A| && l < 32
    ensures 32 * k + l < 32 * |A|
    ensures Entry(Q80, A, 32 * k + l) * Entry(q, W, 32 * k + l) == Times(Stored(Q80, A[k], l) * Stored(q, W[k], l), W[k].d, A[k].d)
  {
    hide Stored, Entry, Times;
    EntryAt(Q80, A, k, l);
    EntryAt(q, W, k, l);
    Regroup(Stored(Q80, A[k], l), Stored(q, W[k], l), A[k].d, W[k].d);
  }

  lemma DotNext(x: VectorSums.Vec, w: VectorSums.Vec, lo: nat, hi: nat)
    requires lo <= hi < |x| == |w|
    ensures VectorSums.Dot(x, w, lo, lo) == 0.0 && VectorSums.Dot(x, w, lo, hi + 1) == VectorSums.Dot(x, w, lo, hi) + x[hi] * w[hi]
  {
  }

  lemma {:induction false} BlockIsDot(q: Quant, A: seq<Block>, W: seq<Block>, k: nat, l: nat)
    requires Good(Q80, A) && Good(q, W) && |A| == |W| && k < |A| && l <= 32
    ensures VectorSums.Dot(Dequantised(Q80, A), Dequantised(q, W), 32 * k, 32 * k + l)
         == Times(Partial(q, A[k].qs, W[k].qs, l), W[k].d, A[k].d)
  {
    hide Stored, Dequantised, Entry, Times, VectorSums.Dot;
    var x, w := Dequantised(Q80, A), Dequantised(q, W);
    DotNext(x, w, 32 * k, 32 * k);
    if l == 0 {
      TimesAdd(0, 0, W[k].d, A[k].d);
    } else {
      hide Partial;
      var m := l - 1;
      BlockIsDot(q, A, W, k, m);
      DotNext(x, w, 32 * k, 32 * k + m);
      EntryProduct(q, A, W, k, m);
      PartialStep(q, A[k], W[k], m);
      TimesAdd(Partial(q, A[k].qs, W[k].qs, m), Stored(Q80, A[k], m) * Stored(q, W[k], m), W[k].d, A[k].d);
    }
  }

  lemma GoodRow(q: Quant, B: seq<Block>, KB: nat, NB: nat, row: nat)
    requires |B| == Area(16 * NB, KB) && Good(q, B) && row < 16 * NB
    ensures Good(q, RowOf(B, KB, NB, row)) && forall k :: 0 <= k < KB ==> BlockAt(B, KB, NB, row, k) == RowOf(B, KB, NB, row)[k]
  {
    hide Area, Flat;
  }

  lemma RowSumStep(q: Quant, A: seq<Block>, B: seq<Block>, KB: nat, NB: nat, row: nat, k: nat)
    requires |A| == KB && Good(Q80, A) && |B| == Area(16 * NB, KB) && Good(q, B) && row < 16 * NB && k < KB
    ensures RowSum(q, A, B, KB, NB, row, k + 1) == RowSum(q, A, B, KB, NB, row, k)
      + Times(Partial(q, A[k].qs, BlockAt(B, KB, NB, row, k).qs, 32), BlockAt(B, KB, NB, row, k).d, A[k].d)
  {
    hide Area, BlockAt, Dot, Dot4;
  }

  lemma {:induction false} RowSumIsDot(q: Quant, A: seq<Block>, B: seq<Block>, KB: nat, NB: nat, row: nat, n: nat)
    requires |A| == KB && Good(Q80, A) && |B| == Area(16 * NB, KB) && Good(q, B) && row < 16 * NB && n <= KB
    ensures Good(q, RowOf(B, KB, NB, row))
    ensures RowSum(q, A, B, KB, NB, row, n) == VectorSums.Dot(Dequantised(Q80, A), Dequantised(q, RowOf(B, KB, NB, row)), 0, 32 * n)
  {
    hide Good, Dequantised, Area, BlockAt, RowOf, Partial, Times, RowSum, VectorSums.Dot;
    GoodRow(q, B, KB, NB, row);
    var W := RowOf(B, KB, NB, row);
    if n == 0 {
      RowSumNone(q, A, B, KB, NB, row, Dequantised(Q80, A), Dequantised(q, W));
    } else {
      var k := n - 1;
      RowSumIsDot(q, A, B, KB, NB, row, k);
      RowSumStep(q, A, B, KB, NB, row, k);
      BlockIsDot(q, A, W, k, 32);
      VectorSums.DotSplit(Dequantised(Q80, A), Dequantised(q, W), 0, 32 * k, 32 * k + 32);
    }
  }

  lemma RowSumNone(q: Quant, A: seq<Block>, B: seq<Block>, KB: nat, NB: nat, row: nat, x: VectorSums.Vec, w: VectorSums.Vec)
    requires |A| == KB && Good(Q80, A) && |B| == Area(16 * NB, KB) && Good(q, B) && row < 16 * NB
    ensures RowSum(q, A, B, KB, NB, row, 0) == VectorSums.Dot(x, w, 0, 0) == 0.0
  {
  }

  /** Packing a weight matrix and multiplying with it: every output is the dot product of the dequantised
      activation row and the dequantised weight row, over all 32 * KB positions. */
  method PackAndMultiply(q: Quant, A: seq<Block>, B: seq<Block>, KB: nat, NB: nat) returns (C: seq<real>)
    requires |A| == KB && Good(Q80, A) && |B| == Area(16 * NB, KB) && Good(q, B)
    ensures |C| == 16 * NB
    ensures forall row: nat :: row < 16 * NB ==> Good(q, RowOf(B, KB, NB, row))
    ensures forall row: nat :: row < 16 * NB ==>
      C[row] == VectorSums.Dot(Dequantised(Q80, A), Dequantised(q, RowOf(B, KB, NB, row)), 0, 32 * KB)
  {
    hide Good, Area, PackedAs, Dequantised, RowSum;
    var tiles := ConvertB(q, B, KB, NB);
    C := Kernel(q, A, tiles, KB, NB, B);
    forall row: nat | row < 16 * NB
      ensures Good(q, RowOf(B, KB, NB, row))
      ensures C[row] == VectorSums.Dot(Dequantised(Q80, A), Dequantised(q, RowOf(B, KB, NB, row)), 0, 32 * KB)
    {
      RowSumIsDot(q, A, B, KB, NB, row, KB);
    }
  }
}
