/** matmul_packed4_group: the whole GEMM over packed E2M1 weights on every instruction set. */
module Packed4 {
  import opened Packed4Decode
  import opened Packed4General
  import opened Packed4Rows
  import opened ScaleTables
  import opened Tables
  import opened VectorSums

  datatype Isa = Avx512 | Avx2 | Scalar

  /** Group scales: E8M0 bytes (MXFP4) or floats (NVFP4). */
  datatype Scales = Exponents(bytes: Bytes) | Floats(values: Vec)

  function CountOf(s: Scales): nat {
    match s case Exponents(b) => |b| case Floats(v) => |v|
  }

  function ScaleOf(s: Scales, i: nat): real
    requires i < CountOf(s)
  {
    match s case Exponents(b) => E8M0(b[i]) case Floats(v) => v[i]
  }

  /** The arguments of one call, A already widened to floats; rowshift is the first weight row that W holds. */
  datatype Problem = Problem(A: Vec, W: Bytes, S: Scales, global: real, M: nat, N: nat, K: int,
                             groupN: int, groupK: int, rowshift: int)

  /** What the caller has to supply for output columns [n0, n1). */
  predicate Supplied(p: Problem, n0: int, n1: int) {
    && 0 < p.K && p.K % 2 == 0 && |p.A| == Area(p.M, p.K) && 0 <= n0 <= n1 <= p.N && p.rowshift <= n0
    && (n1 > n0 ==> Area(n1 - p.rowshift, p.K / 2) <= |p.W|)
    && Area(CeilDiv(p.N, Group(p.groupN)), CeilDiv(p.K, Group(p.groupK))) <= CountOf(p.S)
  }

  function Arow(p: Problem, i: nat): (r: Vec)
    requires 0 < p.K && |p.A| == Area(p.M, p.K) && i < p.M
    ensures |r| == p.K
  {
    AreaLe(i + 1, p.M, p.K);
    AreaAdd(i, 1, p.K);
    p.A[Area(i, p.K)..Area(i, p.K) + p.K]
  }

  function Wrow(p: Problem, j: int, n0: int, n1: int): (r: Bytes)
    requires Supplied(p, n0, n1) && n0 <= j < n1
    ensures |r| == p.K / 2
  {
    AreaLe(j - p.rowshift + 1, n1 - p.rowshift, p.K / 2);
    AreaAdd(j - p.rowshift, 1, p.K / 2);
    p.W[Area(j - p.rowshift, p.K / 2)..Area(j - p.rowshift, p.K / 2) + p.K / 2]
  }

  /** The scales of weight row j, one per group of columns: scale_at(j, g * gk). */
  function ScaleRow(p: Problem, j: int, n0: int, n1: int): (r: Vec)
    requires Supplied(p, n0, n1) && n0 <= j < n1
    ensures |r| == CeilDiv(p.K, Group(p.groupK)) && p.K <= Area(|r|, Group(p.groupK))
  {
    var gn, kb := Group(p.groupN), CeilDiv(p.K, Group(p.groupK));
    CeilCovers(p.K, Group(p.groupK));
    seq(kb, g requires 0 <= g < kb =>
      CeilAbove(p.N, gn, j);
      FlatBound(j / gn, g, kb, CeilDiv(p.N, gn));
      ScaleOf(p.S, Flat(j / gn, g, kb)))
  }

  predicate Fast(p: Problem) {
    Group(p.groupK) == 32 && p.K % 32 == 0 && p.M * p.K <= 4194304
  }

  /** The weights of row j as the path that the call takes decodes them. */
  function PathWeights(p: Problem, isa: Isa, j: int, n0: int, n1: int): Vec
    requires Supplied(p, n0, n1) && n0 <= j < n1
  {
    if isa == Scalar || Fast(p) then Weights(Wrow(p, j, n0, n1), p.K)
    else WeightsVia(Wrow(p, j, n0, n1), Group(p.groupK), p.K)
  }

  function Cell(p: Problem, isa: Isa, i: nat, j: int, n0: int, n1: int): real
    requires Supplied(p, n0, n1) && n0 <= j < n1 && i < p.M
  {
    Scaled(Arow(p, i), PathWeights(p, isa, j, n0, n1), ScaleRow(p, j, n0, n1), Group(p.groupK), p.K) * p.global
  }

  /** The elementwise definition of the product. */
  function Exact(p: Problem, i: nat, j: int, n0: int, n1: int): real
    requires Supplied(p, n0, n1) && n0 <= j < n1 && i < p.M
  {
    Scaled(Arow(p, i), Weights(Wrow(p, j, n0, n1), p.K), ScaleRow(p, j, n0, n1), Group(p.groupK), p.K) * p.global
  }

  /** With aligned groups all paths compute the same product, the elementwise one. */
  lemma PathsAgree(p: Problem, isa: Isa, i: nat, j: int, n0: int, n1: int)
    requires Supplied(p, n0, n1) && n0 <= j < n1 && i < p.M && Aligned(Group(p.groupK), p.K)
    ensures Cell(p, isa, i, j, n0, n1) == Exact(p, i, j, n0, n1)
  {
    hide Scaled, Weights, WeightsVia, Arow, Wrow, ScaleRow, Aligned, Fast, Area;
    AlignedWeights(Wrow(p, j, n0, n1), Group(p.groupK), p.K);
  }

  // ----- Filling the output.

  /** Which cells are done: column by column (fast paths) or row by row. */
  datatype Front = Columns(j: int, mi: nat) | Rows(i: nat, nj: int)

  predicate IsDone(d: Front, i: nat, j: int) {
    match d
    case Columns(dj, mi) => j < dj || (j == dj && i < mi)
    case Rows(di, nj) => i < di || (i == di && j < nj)
  }

  function Next(d: Front): Front {
    match d
    case Columns(j, mi) => Columns(j, mi + 1)
    case Rows(i, nj) => Rows(i, nj + 1)
  }

  ghost predicate CellIs(c: seq<real>, p: Problem, isa: Isa, i: nat, j: int, n0: int, n1: int)
    requires Supplied(p, n0, n1) && n0 <= j < n1 && i < p.M
  {
    Flat(i, j, p.N) < |c| && c[Flat(i, j, p.N)] == Cell(p, isa, i, j, n0, n1)
  }

  /** Position q belongs to some row's columns [n0, n1). */
  predicate Touched(p: Problem, q: nat, n0: int, n1: int) {
    p.N > 0 && q < Area(p.M, p.N) && n0 <= q % p.N < n1
  }

  ghost predicate Progress(c: seq<real>, c0: seq<real>, p: Problem, isa: Isa, n0: int, n1: int, d: Front) {
    && Supplied(p, n0, n1) && |c| == |c0| && Area(p.M, p.N) <= |c|
    && (forall i: nat, j :: i < p.M && n0 <= j < n1 && IsDone(d, i, j) ==> CellIs(c, p, isa, i, j, n0, n1))
    && (forall q: nat :: q < |c| && !Touched(p, q, n0, n1) ==> c[q] == c0[q])
  }

  lemma ProgressStep(c: seq<real>, c0: seq<real>, p: Problem, isa: Isa, n0: int, n1: int, d: Front, i: nat, j: int)
    requires Progress(c, c0, p, isa, n0, n1, d) && i < p.M && n0 <= j < n1 && (d == Columns(j, i) || d == Rows(i, j))
    ensures Flat(i, j, p.N) < |c|
    ensures Progress(c[Flat(i, j, p.N) := Cell(p, isa, i, j, n0, n1)], c0, p, isa, n0, n1, Next(d))
  {
    hide Cell, Flat, Area;
    FlatBound(i, j, p.N, p.M);
    FlatInverse(i, j, p.N);
    var c' := c[Flat(i, j, p.N) := Cell(p, isa, i, j, n0, n1)];
    forall i': nat, j' | i' < p.M && n0 <= j' < n1 && IsDone(Next(d), i', j') ensures CellIs(c', p, isa, i', j', n0, n1) {
      FlatInjective(i, j, i', j', p.N);
      if (i', j') != (i, j) { assert CellIs(c, p, isa, i', j', n0, n1); }
    }
  }

  lemma ProgressNewColumn(c: seq<real>, c0: seq<real>, p: Problem, isa: Isa, n0: int, n1: int, j: int)
    requires Progress(c, c0, p, isa, n0, n1, Columns(j, p.M))
    ensures Progress(c, c0, p, isa, n0, n1, Columns(j + 1, 0))
  {
    hide Cell, Flat, Area;
  }

  lemma ProgressNewRow(c: seq<real>, c0: seq<real>, p: Problem, isa: Isa, n0: int, n1: int, i: nat)
    requires Progress(c, c0, p, isa, n0, n1, Rows(i, n1))
    ensures Progress(c, c0, p, isa, n0, n1, Rows(i + 1, n0))
  {
    hide Cell, Flat, Area;
  }

  ghost predicate ColumnsDone(c: seq<real>, p: Problem, isa: Isa, n0: int, n1: int)
    requires Supplied(p, n0, n1)
  {
    forall i: nat, j :: i < p.M && n0 <= j < n1 ==> CellIs(c, p, isa, i, j, n0, n1)
  }

  /** All cells of [n0, n1) are what the path computes, everything else is as before. */
  ghost predicate Filled(c: seq<real>, c0: seq<real>, p: Problem, isa: Isa, n0: int, n1: int)
  {
    && Supplied(p, n0, n1) && |c| == |c0| && ColumnsDone(c, p, isa, n0, n1)
    && (forall q: nat :: q < |c| && !Touched(p, q, n0, n1) ==> c[q] == c0[q])
  }

  lemma FilledWhenDone(c: seq<real>, c0: seq<real>, p: Problem, isa: Isa, n0: int, n1: int, d: Front)
    requires Progress(c, c0, p, isa, n0, n1, d) && (d == Columns(n1, 0) || d == Rows(p.M, n0))
    ensures Filled(c, c0, p, isa, n0, n1)
  {
    hide CellIs, Area;
  }

  /** C[i * N + j] = v. */
  method Store(C: array<real>, ghost c0: seq<real>, p: Problem, ghost isa: Isa, ghost n0: int, ghost n1: int, ghost d: Front,
               i: nat, j: nat, v: real)
    requires Progress(C[..], c0, p, isa, n0, n1, d) && i < p.M && n0 <= j < n1 && (d == Columns(j, i) || d == Rows(i, j))
    requires v == Cell(p, isa, i, j, n0, n1)
    modifies C
    ensures Progress(C[..], c0, p, isa, n0, n1, Next(d))
  {
    hide Cell, Progress, Supplied, Area, Flat;
    ProgressStep(C[..], c0, p, isa, n0, n1, d, i, j);
    ghost var before := C[..];
    C[Flat(i, j, p.N)] := v;
    assert C[..] == before[Flat(i, j, p.N) := v];
  }

  /** The activations of rows mi to mi + 3. */
  function FourRows(p: Problem, mi: nat): (r: seq<Vec>)
    requires 0 < p.K && |p.A| == Area(p.M, p.K) && mi + 4 <= p.M
    ensures |r| == 4 && forall t :: 0 <= t < 4 ==> r[t] == Arow(p, mi + t)
  {
    [Arow(p, mi), Arow(p, mi + 1), Arow(p, mi + 2), Arow(p, mi + 3)]
  }

  lemma FastShape(p: Problem, isa: Isa, j: int, n0: int, n1: int)
    requires Supplied(p, n0, n1) && n0 <= j < n1 && Fast(p)
    ensures p.K == 32 * (p.K / 32) && |Wrow(p, j, n0, n1)| == 16 * (p.K / 32) && |ScaleRow(p, j, n0, n1)| == p.K / 32
    ensures forall i: nat :: i < p.M ==>
      (Cell(p, isa, i, j, n0, n1) ==
        Scaled(Arow(p, i), Weights(Wrow(p, j, n0, n1), p.K), ScaleRow(p, j, n0, n1), 32, p.K) * p.global)
  {
    hide Scaled, Weights, Arow, Area;
  }

  /** The four stores at the end of a 4-token block. */
  method StoreFour(C: array<real>, ghost c0: seq<real>, p: Problem, ghost isa: Isa, ghost n0: int, ghost n1: int, mi: nat, j: nat,
                   sums: seq<real>)
    requires Progress(C[..], c0, p, isa, n0, n1, Columns(j, mi)) && mi + 4 <= p.M && n0 <= j < n1 && |sums| == 4
    requires forall t :: 0 <= t < 4 ==> sums[t] * p.global == Cell(p, isa, mi + t, j, n0, n1)
    modifies C
    ensures Progress(C[..], c0, p, isa, n0, n1, Columns(j, mi + 4))
  {
    hide Cell, Progress, Supplied, Area, Flat;
    for t := 0 to 4
      invariant Progress(C[..], c0, p, isa, n0, n1, Columns(j, mi + t))
    {
      Store(C, c0, p, isa, n0, n1, Columns(j, mi + t), mi + t, j, sums[t] * p.global);
    }
  }

  /** The AVX512 path: for each output column, four tokens at a time, then the rest one by one. */
  method FastAvx512(p: Problem, C: array<real>, n0: nat, n1: int)
    requires Supplied(p, n0, n1) && Fast(p) && Area(p.M, p.N) <= C.Length
    modifies C
    ensures Filled(C[..], old(C[..]), p, Avx512, n0, n1)
  {
    hide Supplied, Fast, Progress, Cell, Scaled, Weights, Arow, Wrow, ScaleRow, Area, Filled;
    var groups := p.K / 32;
    Start(C[..], p, Avx512, n0, n1);
    for j := n0 to n1
      invariant Progress(C[..], old(C[..]), p, Avx512, n0, n1, Columns(j, 0))
    {
      FastShape(p, Avx512, j, n0, n1);
      var wrow, scale := Wrow(p, j, n0, n1), ScaleRow(p, j, n0, n1);
      var mi := 0;
      while mi + 4 <= p.M
        invariant mi <= p.M && Progress(C[..], old(C[..]), p, Avx512, n0, n1, Columns(j, mi))
      {
        var sums := Block4Avx512(FourRows(p, mi), wrow, scale, groups);
        StoreFour(C, old(C[..]), p, Avx512, n0, n1, mi, j, sums);
        mi := mi + 4;
      }
      while mi < p.M
        invariant mi <= p.M && Progress(C[..], old(C[..]), p, Avx512, n0, n1, Columns(j, mi))
      {
        var sum := RowAvx512(Arow(p, mi), wrow, scale, groups);
        Store(C, old(C[..]), p, Avx512, n0, n1, Columns(j, mi), mi, j, sum * p.global);
        mi := mi + 1;
      }
      ProgressNewColumn(C[..], old(C[..]), p, Avx512, n0, n1, j);
    }
    FilledWhenDone(C[..], old(C[..]), p, Avx512, n0, n1, Columns(n1, 0));
  }

  lemma Start(c: seq<real>, p: Problem, isa: Isa, n0: nat, n1: int)
    requires Supplied(p, n0, n1) && Area(p.M, p.N) <= |c|
    ensures Progress(c, c, p, isa, n0, n1, Columns(n0, 0)) && Progress(c, c, p, isa, n0, n1, Rows(0, n0)) && n0 <= n1 && 0 < p.K
    ensures |p.A| == Area(p.M, p.K)
  {
    hide Cell, Area;
  }

  /** Every activation row in decode order. */
  method PermuteRows(p: Problem) returns (rows: seq<Vec>)
    requires 0 < p.K && |p.A| == Area(p.M, p.K) && p.K == 32 * (p.K / 32)
    ensures |rows| == p.M && forall i :: 0 <= i < p.M ==> Permuted(rows[i], Arow(p, i))
  {
    hide Arow, Permuted, Area;
    rows := [];
    for i := 0 to p.M
      invariant |rows| == i && forall l :: 0 <= l < i ==> Permuted(rows[l], Arow(p, l))
    {
      var row := Permute(Arow(p, i), p.K / 32);
      rows := rows + [row];
    }
  }

  /** One output column of the fast AVX2 path. */
  method ColumnAvx2(p: Problem, C: array<real>, ghost c0: seq<real>, aPerm: seq<Vec>, n0: nat, n1: int, j: nat)
    requires Progress(C[..], c0, p, Avx2, n0, n1, Columns(j, 0)) && Fast(p) && n0 <= j < n1
    requires Supplied(p, n0, n1) && |aPerm| == p.M && forall i :: 0 <= i < p.M ==> Permuted(aPerm[i], Arow(p, i))
    modifies C
    ensures Progress(C[..], c0, p, Avx2, n0, n1, Columns(j + 1, 0))
  {
    hide Supplied, Fast, Progress, Cell, Arow, Wrow, ScaleRow, Area, Permuted;
    Sized(p, n0, n1);
    var wrow, scale := Wrow(p, j, n0, n1), ScaleRow(p, j, n0, n1);
    var mi := 0;
    while mi + 4 <= p.M
      invariant mi <= p.M && Progress(C[..], c0, p, Avx2, n0, n1, Columns(j, mi))
    {
      var sums := BlockAvx2(p, aPerm, wrow, scale, n0, n1, mi, j);
      StoreFour(C, c0, p, Avx2, n0, n1, mi, j, sums);
      mi := mi + 4;
    }
    while mi < p.M
      invariant mi <= p.M && Progress(C[..], c0, p, Avx2, n0, n1, Columns(j, mi))
    {
      FastShape(p, Avx2, j, n0, n1);
      var sum := RowAvx2(aPerm[mi], wrow, scale, p.K / 32, Arow(p, mi));
      Store(C, c0, p, Avx2, n0, n1, Columns(j, mi), mi, j, sum * p.global);
      mi := mi + 1;
    }
    ProgressNewColumn(C[..], c0, p, Avx2, n0, n1, j);
  }

  method BlockAvx2(p: Problem, aPerm: seq<Vec>, wrow: Bytes, scale: Vec, ghost n0: nat, ghost n1: int, mi: nat, j: nat) returns (sums: seq<real>)
    requires Supplied(p, n0, n1) && Fast(p) && n0 <= j < n1 && wrow == Wrow(p, j, n0, n1) && scale == ScaleRow(p, j, n0, n1)
    requires |aPerm| == p.M && mi + 4 <= p.M && forall i :: 0 <= i < p.M ==> Permuted(aPerm[i], Arow(p, i))
    ensures |sums| == 4 && forall t :: 0 <= t < 4 ==> sums[t] * p.global == Cell(p, Avx2, mi + t, j, n0, n1)
  {
    hide Supplied, Fast, Cell, Scaled, Weights, Arow, Wrow, ScaleRow, Area, Permuted;
    Sized(p, n0, n1);
    FastShape(p, Avx2, j, n0, n1);
    ghost var a := FourRows(p, mi);
    var pa := aPerm[mi..mi + 4];
    assert forall t :: 0 <= t < 4 ==> pa[t] == aPerm[mi + t] && Permuted(pa[t], a[t]);
    sums := Block4Avx2(pa, wrow, scale, p.K / 32, a);
  }

  lemma Sized(p: Problem, n0: int, n1: int)
    requires Supplied(p, n0, n1)
    ensures 0 < p.K && |p.A| == Area(p.M, p.K)
  {
  }

  /** The fast AVX2 path. */
  method FastAvx2(p: Problem, C: array<real>, n0: nat, n1: int)
    requires Supplied(p, n0, n1) && Fast(p) && Area(p.M, p.N) <= C.Length
    modifies C
    ensures Filled(C[..], old(C[..]), p, Avx2, n0, n1)
  {
    FastMultiple(p);
    Start(C[..], p, Avx2, n0, n1);
    hide Supplied, Fast, Progress, Cell, Arow, Area, Filled, Permuted;
    var aPerm := PermuteRows(p);
    for j := n0 to n1
      invariant Progress(C[..], old(C[..]), p, Avx2, n0, n1, Columns(j, 0))
    {
      ColumnAvx2(p, C, old(C[..]), aPerm, n0, n1, j);
    }
    FilledWhenDone(C[..], old(C[..]), p, Avx2, n0, n1, Columns(n1, 0));
  }

  lemma FastMultiple(p: Problem)
    requires Fast(p) && 0 < p.K
    ensures p.K == 32 * (p.K / 32)
  {
  }

  /** The paths that go row by row: the general vector path and the portable one. */
  method RowByRow(p: Problem, isa: Isa, C: array<real>, n0: nat, n1: int)
    requires Supplied(p, n0, n1) && (isa == Scalar || !Fast(p)) && Area(p.M, p.N) <= C.Length
    modifies C
    ensures Filled(C[..], old(C[..]), p, isa, n0, n1)
  {
    hide Supplied, Fast, Progress, Cell, Scaled, Weights, WeightsVia, Arow, Wrow, ScaleRow, Area, Filled;
    Start(C[..], p, isa, n0, n1);
    for i := 0 to p.M
      invariant Progress(C[..], old(C[..]), p, isa, n0, n1, Rows(i, n0))
    {
      for j := n0 to n1
        invariant Progress(C[..], old(C[..]), p, isa, n0, n1, Rows(i, j))
      {
        SlowShape(p, isa, i, j, n0, n1);
        var acc;
        if isa == Scalar {
          acc := RowScalar(Arow(p, i), Wrow(p, j, n0, n1), ScaleRow(p, j, n0, n1), Group(p.groupK), p.K);
        } else {
          acc := RowGeneral(Arow(p, i), Wrow(p, j, n0, n1), ScaleRow(p, j, n0, n1), Group(p.groupK), p.K);
        }
        Store(C, old(C[..]), p, isa, n0, n1, Rows(i, j), i, j, acc * p.global);
      }
      ProgressNewRow(C[..], old(C[..]), p, isa, n0, n1, i);
    }
    FilledWhenDone(C[..], old(C[..]), p, isa, n0, n1, Rows(p.M, n0));
  }

  lemma SlowShape(p: Problem, isa: Isa, i: nat, j: int, n0: int, n1: int)
    requires Supplied(p, n0, n1) && n0 <= j < n1 && i < p.M && (isa == Scalar || !Fast(p))
    ensures |Arow(p, i)| == p.K == 2 * |Wrow(p, j, n0, n1)| && p.K <= Area(|ScaleRow(p, j, n0, n1)|, Group(p.groupK))
    ensures isa == Scalar ==> (Cell(p, isa, i, j, n0, n1) ==
        Scaled(Arow(p, i), Weights(Wrow(p, j, n0, n1), p.K), ScaleRow(p, j, n0, n1), Group(p.groupK), p.K) * p.global)
    ensures isa != Scalar ==> (Cell(p, isa, i, j, n0, n1) ==
        Scaled(Arow(p, i), WeightsVia(Wrow(p, j, n0, n1), Group(p.groupK), p.K), ScaleRow(p, j, n0, n1), Group(p.groupK), p.K) * p.global)
  {
    hide Scaled, Weights, WeightsVia, Area;
  }

  /** The last output column after clamping: n1 < 0 or past N means N. */
  function LastColumn(N: nat, n1: int): int {
    if n1 < 0 || n1 > N then N else n1
  }

  /** matmul_packed4_group.  An empty, odd or negative K and an empty column range leave C alone; otherwise
      every cell of rows [0, M) and columns [n0, n1) is filled, and no other cell is written.  Packed4Meaning
      says what the cells hold. */
  method MatmulPacked4Group(isa: Isa, p: Problem, C: array<real>, n0: nat, n1: int)
    requires p.K > 0 && p.K % 2 == 0 && LastColumn(p.N, n1) > n0 ==> Supplied(p, n0, LastColumn(p.N, n1)) && Area(p.M, p.N) <= C.Length
    modifies C
    ensures var last := if n1 < 0 || n1 > p.N then p.N else n1;
      if p.K <= 0 || p.K % 2 == 1 || last <= n0 then C[..] == old(C[..]) else Filled(C[..], old(C[..]), p, isa, n0, last)
  {
    hide Supplied, Fast, Filled;
    if p.K <= 0 || p.K % 2 == 1 {
      return;
    }
    var last := LastColumn(p.N, n1);
    if last <= n0 {
      return;
    }
    if isa == Avx512 && Fast(p) {
      FastAvx512(p, C, n0, last);
    } else if isa == Avx2 && Fast(p) {
      FastAvx2(p, C, n0, last);
    } else {
      RowByRow(p, isa, C, n0, last);
    }
  }

  /** Rows [n0, n1) of gate and the same rows of up, which lie `inter` columns further on. */
  ghost predicate SliceFilled(c: seq<real>, c0: seq<real>, p: Problem, isa: Isa, inter: nat, n0: nat, n1: int) {
    && Supplied(p, n0, n1) && Supplied(p, inter + n0, inter + n1) && |c| == |c0|
    && ColumnsDone(c, p, isa, n0, n1) && ColumnsDone(c, p, isa, inter + n0, inter + n1)
    && (forall q: nat :: q < |c| && !Touched(p, q, n0, n1) && !Touched(p, q, inter + n0, inter + n1) ==> c[q] == c0[q])
  }

  lemma SliceParts(c: seq<real>, c1: seq<real>, c0: seq<real>, p: Problem, isa: Isa, inter: nat, n0: nat, n1: int)
    requires p.N == 2 * inter && n1 <= inter && Filled(c1, c0, p, isa, n0, n1) && Filled(c, c1, p, isa, inter + n0, inter + n1)
    ensures SliceFilled(c, c0, p, isa, inter, n0, n1)
  {
    hide Cell, Supplied, Flat, Area;
    forall i: nat, j | i < p.M && n0 <= j < n1 ensures CellIs(c, p, isa, i, j, n0, n1) {
      assert CellIs(c1, p, isa, i, j, n0, n1);
      FlatInverse(i, j, p.N);
    }
  }

  /** gate_up_slice_batch: two products into the same buffer, over the gate rows and over the up rows. */
  method GateUpSliceBatch(isa: Isa, p: Problem, both: array<real>, inter: nat, n0: nat, n1: int)
    requires p.N == 2 * inter && Area(p.M, p.N) <= both.Length
    requires p.K > 0 && p.K % 2 == 0 && LastColumn(inter, n1) > n0 ==>
      Supplied(p, n0, LastColumn(inter, n1)) && Supplied(p, inter + n0, inter + LastColumn(inter, n1))
    modifies both
    ensures var last := if n1 < 0 || n1 > inter then inter else n1;
      if p.K <= 0 || p.K % 2 == 1 || last <= n0 || p.M == 0 then both[..] == old(both[..])
      else SliceFilled(both[..], old(both[..]), p, isa, inter, n0, last)
  {
    hide Supplied, Filled, SliceFilled, Area;
    if p.M == 0 {
      return;
    }
    var last := LastColumn(inter, n1);
    if last <= n0 {
      return;
    }
    MatmulPacked4Group(isa, p, both, n0, last);
    ghost var gate := both[..];
    MatmulPacked4Group(isa, p, both, inter + n0, inter + last);
    if p.K > 0 && p.K % 2 == 0 {
      SliceParts(both[..], gate, old(both[..]), p, isa, inter, n0, last);
    }
  }
}
