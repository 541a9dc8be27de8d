/** What the packed GEMM leaves in C, said of the raw arrays alone. */
module Packed4Meaning {
  import opened Packed4
  import opened Packed4Decode
  import opened Packed4General
  import opened Packed4Rows
  import opened ScaleTables
  import opened Tables
  import opened VectorSums

  lemma ScaleInside(p: Problem, n0: int, n1: int, j: nat, k: nat)
    requires Supplied(p, n0, n1) && n0 <= j < n1 && k < p.K
    ensures ScaleIndex(p.K, p.groupN, p.groupK, j, k) < CountOf(p.S)
  {
    ScaleIndexInTable(Grid(1, p.N, p.K, p.groupN, p.groupK, 1), j, k);
    hide Area;
  }

  function Scale(p: Problem, n0: int, n1: int, j: nat, k: nat): real
    requires Supplied(p, n0, n1) && n0 <= j < n1 && k < p.K
  {
    ScaleInside(p, n0, n1, j, k);
    var at := ScaleIndex(p.K, p.groupN, p.groupK, j, k);
    match p.S
    case Exponents(bytes) => Pow2(bytes[at] as int - 127)
    case Floats(values) => values[at]
  }

  /** Element k of weight row j: K / 2 bytes a row, rowshift rows missing, the low nibble for even k. */
  function Weight(p: Problem, n0: int, n1: int, j: nat, k: nat): real
    requires Supplied(p, n0, n1) && n0 <= j < n1 && k < p.K
  {
    WeightInside(p, n0, n1, j, k);
    var byte := p.W[Flat(j - p.rowshift, k / 2, p.K / 2)];
    E2M1(if k % 2 == 0 then byte & 0x0F else byte >> 4)
  }

  lemma WeightInside(p: Problem, n0: int, n1: int, j: nat, k: nat)
    requires Supplied(p, n0, n1) && n0 <= j < n1 && k < p.K
    ensures Flat(j - p.rowshift, k / 2, p.K / 2) < |p.W|
    ensures Wrow(p, j, n0, n1)[k / 2] == p.W[Flat(j - p.rowshift, k / 2, p.K / 2)]
  {
    hide Area, Flat;
    RowEntry(p.W, j - p.rowshift, k / 2, p.K / 2, n1 - p.rowshift);
  }

  lemma ActivationInside(p: Problem, i: nat, k: nat)
    requires 0 < p.K && |p.A| == Area(p.M, p.K) && i < p.M && k < p.K
    ensures Flat(i, k, p.K) < |p.A| && Arow(p, i)[k] == p.A[Flat(i, k, p.K)]
  {
    hide Area, Flat;
    RowEntry(p.A, i, k, p.K, p.M);
  }

  lemma ScaleInRow(p: Problem, n0: int, n1: int, j: nat, k: nat)
    requires Supplied(p, n0, n1) && n0 <= j < n1 && k < p.K
    ensures k / Group(p.groupK) < |ScaleRow(p, j, n0, n1)|
    ensures ScaleRow(p, j, n0, n1)[k / Group(p.groupK)] == Scale(p, n0, n1, j, k)
  {
    CeilAbove(p.K, Group(p.groupK), k);
    ScaleInside(p, n0, n1, j, k);
    hide Area, CeilDiv, Supplied;
  }

  /** A[i, k] * W[j, k] * scale(j, k). */
  function Term(p: Problem, n0: int, n1: int, i: nat, j: nat, k: nat): real
    requires Supplied(p, n0, n1) && i < p.M && n0 <= j < n1 && k < p.K
  {
    ActivationInside(p, i, k);
    p.A[Flat(i, k, p.K)] * Weight(p, n0, n1, j, k) * Scale(p, n0, n1, j, k)
  }

  function Terms(p: Problem, n0: int, n1: int, i: nat, j: nat): (r: Vec)
    requires Supplied(p, n0, n1) && i < p.M && n0 <= j < n1
    ensures |r| == p.K && forall k :: 0 <= k < p.K ==> r[k] == Term(p, n0, n1, i, j, k)
  {
    seq(p.K, k requires 0 <= k < p.K => Term(p, n0, n1, i, j, k))
  }

  lemma TermIs(p: Problem, n0: int, n1: int, i: nat, j: nat, k: nat)
    requires Supplied(p, n0, n1) && i < p.M && n0 <= j < n1 && k < p.K
    ensures k / Group(p.groupK) < |ScaleRow(p, j, n0, n1)| && k < |Weights(Wrow(p, j, n0, n1), p.K)|
    ensures Term(p, n0, n1, i, j, k)
         == Arow(p, i)[k] * Weights(Wrow(p, j, n0, n1), p.K)[k] * ScaleRow(p, j, n0, n1)[k / Group(p.groupK)]
  {
    hide Scale, Arow, Wrow, ScaleRow, Area, E2M1;
    ActivationInside(p, i, k);
    WeightInside(p, n0, n1, j, k);
    ScaleInRow(p, n0, n1, j, k);
  }

  lemma EvenRow(p: Problem, n0: int, n1: int)
    requires Supplied(p, n0, n1)
    ensures p.K == 2 * (p.K / 2)
  {
  }

  /** The elementwise sum of row i and weight row j, term by term. */
  lemma ScaledRow(p: Problem, i: nat, j: nat, n0: int, n1: int)
    requires Supplied(p, n0, n1) && n0 <= j < n1 && i < p.M
    ensures |Arow(p, i)| == |Weights(Wrow(p, j, n0, n1), p.K)| == p.K <= Area(|ScaleRow(p, j, n0, n1)|, Group(p.groupK))
    ensures Scaled(Arow(p, i), Weights(Wrow(p, j, n0, n1), p.K), ScaleRow(p, j, n0, n1), Group(p.groupK), p.K) == Sum(Terms(p, n0, n1, i, j))
  {
    hide Supplied, Scaled, Term, Terms, Arow, Wrow, ScaleRow, Area, Weights, CeilDiv;
    Sized(p, n0, n1);
    var a, wrow, scale := Arow(p, i), Wrow(p, j, n0, n1), ScaleRow(p, j, n0, n1);
    var terms := Terms(p, n0, n1, i, j);
    EvenRow(p, n0, n1);
    WeightsLength(wrow, p.K);
    var w := Weights(wrow, p.K);
    forall k | 0 <= k < p.K ensures k / Group(p.groupK) < |scale| && terms[k] == a[k] * w[k] * scale[k / Group(p.groupK)] {
      TermIs(p, n0, n1, i, j, k);
    }
    ScaledIsSum(a, w, scale, Group(p.groupK), terms, p.K);
  }

  /** A cell is the sum over k of the terms, times the global scale, on every path that decodes the right weights. */
  lemma CellIsSum(p: Problem, isa: Isa, i: nat, j: nat, n0: int, n1: int)
    requires Supplied(p, n0, n1) && n0 <= j < n1 && i < p.M && (isa == Scalar || Aligned(Group(p.groupK), p.K))
    ensures Cell(p, isa, i, j, n0, n1) == Sum(Terms(p, n0, n1, i, j)) * p.global
  {
    hide Supplied, Scaled, Terms, Arow, Wrow, ScaleRow, Area, Weights, WeightsVia, Aligned, Fast, Sum, CeilDiv;
    ScaledRow(p, i, j, n0, n1);
    if isa != Scalar { PathsAgree(p, isa, i, j, n0, n1); }
  }

  /** What a filled C holds: the product in the columns [n0, n1) of its M rows. */
  lemma ProductIs(c: seq<real>, c0: seq<real>, p: Problem, isa: Isa, n0: int, n1: int, i: nat, j: nat)
    requires Filled(c, c0, p, isa, n0, n1) && (isa == Scalar || Aligned(Group(p.groupK), p.K)) && i < p.M && n0 <= j < n1
    ensures Flat(i, j, p.N) < |c| && c[Flat(i, j, p.N)] == Sum(Terms(p, n0, n1, i, j)) * p.global
  {
    hide Cell, Supplied, Sum, Terms, Aligned, Flat;
    assert CellIs(c, p, isa, i, j, n0, n1);
    CellIsSum(p, isa, i, j, n0, n1);
  }

  /** Everything else is as before. */
  lemma OthersUntouched(c: seq<real>, c0: seq<real>, p: Problem, isa: Isa, n0: int, n1: int, q: nat)
    requires Filled(c, c0, p, isa, n0, n1) && q < |c|
    ensures |c| == |c0| && (c[q] == c0[q] || (p.N > 0 && q < Area(p.M, p.N) && n0 <= q % p.N < n1))
  {
    assert Touched(p, q, n0, n1) || c[q] == c0[q];
  }

  lemma UnitTerm(p: Problem, n0: int, n1: int, i: nat, j: nat, k: nat, l: nat)
    requires Supplied(p, n0, n1) && i < p.M && n0 <= j < n1 && k < p.K && l < p.K && OneAt(p.A, Flat(i, k, p.K))
    ensures Term(p, n0, n1, i, j, l) == if l == k then Weight(p, n0, n1, j, k) * Scale(p, n0, n1, j, k) else 0.0
  {
    hide Weight, Scale, Area, Flat, CeilDiv;
    ActivationInside(p, i, l);
    FlatInjective(i, l, i, k, p.K);
  }

  lemma UnitSum(p: Problem, n0: int, n1: int, i: nat, j: nat, k: nat)
    requires Supplied(p, n0, n1) && i < p.M && n0 <= j < n1 && k < p.K && OneAt(p.A, Flat(i, k, p.K))
    ensures Sum(Terms(p, n0, n1, i, j)) == Weight(p, n0, n1, j, k) * Scale(p, n0, n1, j, k)
  {
    hide Supplied, Weight, Scale, Terms, Term, Flat, OneAt;
    var terms := Terms(p, n0, n1, i, j);
    forall l | 0 <= l < p.K ensures terms[l] == if l == k then Weight(p, n0, n1, j, k) * Scale(p, n0, n1, j, k) else 0.0 {
      UnitTerm(p, n0, n1, i, j, k, l);
    }
    OneTerm(terms, k, p.K);
  }

  lemma FilledIsSupplied(c: seq<real>, c0: seq<real>, p: Problem, isa: Isa, n0: int, n1: int)
    requires Filled(c, c0, p, isa, n0, n1)
    ensures Supplied(p, n0, n1)
  {
  }

  /** With a single one at A[i, k], cell (i, j) shows weight (j, k) under its own scale. */
  lemma UnitProduct(c: seq<real>, c0: seq<real>, p: Problem, isa: Isa, n0: int, n1: int, i: nat, j: nat, k: nat)
    requires Filled(c, c0, p, isa, n0, n1) && (isa == Scalar || Aligned(Group(p.groupK), p.K))
    requires i < p.M && n0 <= j < n1 && k < p.K && OneAt(p.A, Flat(i, k, p.K))
    ensures Flat(i, j, p.N) < |c| && c[Flat(i, j, p.N)] == Weight(p, n0, n1, j, k) * Scale(p, n0, n1, j, k) * p.global
  {
    hide Supplied, Filled, Weight, Scale, Terms, Sum, Flat, Aligned, OneAt;
    FilledIsSupplied(c, c0, p, isa, n0, n1);
    ProductIs(c, c0, p, isa, n0, n1, i, j);
    UnitSum(p, n0, n1, i, j, k);
  }

  /** The fused gate and up slices hold the products of their own rows, which lie `inter` apart. */
  lemma SliceIs(c: seq<real>, c0: seq<real>, p: Problem, isa: Isa, inter: nat, n0: nat, n1: int, i: nat, j: nat)
    requires SliceFilled(c, c0, p, isa, inter, n0, n1) && (isa == Scalar || Aligned(Group(p.groupK), p.K)) && i < p.M && n0 <= j < n1
    ensures Flat(i, j, p.N) < |c| && c[Flat(i, j, p.N)] == Sum(Terms(p, n0, n1, i, j)) * p.global
    ensures Flat(i, inter + j, p.N) < |c|
    ensures c[Flat(i, inter + j, p.N)] == Sum(Terms(p, inter + n0, inter + n1, i, inter + j)) * p.global
  {
    hide Cell, Supplied, Sum, Terms, Aligned, Flat;
    assert CellIs(c, p, isa, i, j, n0, n1) && CellIs(c, p, isa, i, inter + j, inter + n0, inter + n1);
    CellIsSum(p, isa, i, j, n0, n1);
    CellIsSum(p, isa, i, inter + j, inter + n0, inter + n1);
  }

  lemma SliceOthersUntouched(c: seq<real>, c0: seq<real>, p: Problem, isa: Isa, inter: nat, n0: nat, n1: int, q: nat)
    requires SliceFilled(c, c0, p, isa, inter, n0, n1) && q < |c|
    ensures |c| == |c0|
    ensures c[q] == c0[q] || (p.N > 0 && q < Area(p.M, p.N) && (n0 <= q % p.N < n1 || inter + n0 <= q % p.N < inter + n1))
  {
    assert Touched(p, q, n0, n1) || Touched(p, q, inter + n0, inter + n1) || c[q] == c0[q];
  }

  /** The anchors of the scale format: 127 means one, the next byte twice as much. */
  lemma E8M0Is(b: bv8)
    ensures E8M0(127) == 1.0 && (b < 255 ==> E8M0(b + 1) == 2.0 * E8M0(b))
  {
    if b < 255 { assert (b + 1) as int == b as int + 1; }
  }
}
