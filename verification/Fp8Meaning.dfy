/** What the FP8 GEMM leaves in C, said of the raw arrays alone. */
module Fp8Meaning {
  import opened Fp8
  import opened ScaleTables
  import opened Tables
  import opened VectorSums

  lemma Inside(p: Problem, i: nat, j: nat, k: nat)
    requires Supplied(p) && i < p.M && j < p.N && k < p.K
    ensures Flat(i, k, p.K) < |p.A| && Row(p.A, i, p.M, p.K)[k] == p.A[Flat(i, k, p.K)]
    ensures Flat(j, k, p.K) < |p.W| && Row(p.W, j, p.N, p.K)[k] == p.W[Flat(j, k, p.K)]
  {
    hide Area, Flat;
    RowEntry(p.A, i, k, p.K, p.M);
    RowEntry(p.W, j, k, p.K, p.N);
  }

  function Scale(p: Problem, j: nat, k: nat): real
    requires Supplied(p) && j < p.N && k < p.K
  {
    ScaleInside(p, j, k);
    p.S[ScaleIndex(p.K, p.groupN, p.groupK, j, k)]
  }

  lemma ScaleInside(p: Problem, j: nat, k: nat)
    requires Supplied(p) && j < p.N && k < p.K
    ensures ScaleIndex(p.K, p.groupN, p.groupK, j, k) < |p.S|
  {
    hide Area, Flat;
    ScaleIndexInTable(Grid(1, p.N, p.K, p.groupN, p.groupK, 4), j, k);
  }

  lemma ScaleInRow(p: Problem, j: nat, k: nat)
    requires Supplied(p) && j < p.N && k < p.K
    ensures k / Group(p.groupK) < |ScaleRow(p, j)|
    ensures ScaleRow(p, j)[k / Group(p.groupK)] == Scale(p, j, k)
  {
    hide Area, Flat;
    CeilAbove(p.N, Group(p.groupN), j);
    CeilAbove(p.K, Group(p.groupK), k);
    ScaleInside(p, j, k);
    RowEntry(p.S, j / Group(p.groupN), k / Group(p.groupK), CeilDiv(p.K, Group(p.groupK)), CeilDiv(p.N, Group(p.groupN)));
  }

  lemma Sizes(p: Problem)
    requires Supplied(p)
    ensures |p.A| == Area(p.M, p.K) && |p.W| == Area(p.N, p.K)
  {
  }

  /** A[i, k] * e4m3(W[j, k]) * S[j / groupN, k / groupK]. */
  function Term(p: Problem, i: nat, j: nat, k: nat): real
    requires Supplied(p) && i < p.M && j < p.N && k < p.K
  {
    Inside(p, i, j, k);
    p.A[Flat(i, k, p.K)] * Decode(p.W[Flat(j, k, p.K)]) * Scale(p, j, k)
  }

  function Terms(p: Problem, i: nat, j: nat): (r: Vec)
    requires Supplied(p) && i < p.M && j < p.N
    ensures |r| == p.K && forall k :: 0 <= k < p.K ==> r[k] == Term(p, i, j, k)
  {
    seq(p.K, k requires 0 <= k < p.K => Term(p, i, j, k))
  }

  lemma TermIs(p: Problem, i: nat, j: nat, k: nat)
    requires Supplied(p) && i < p.M && j < p.N && k < p.K
    ensures k / Group(p.groupK) < |ScaleRow(p, j)|
    ensures Term(p, i, j, k) == Row(p.A, i, p.M, p.K)[k] * Decoded(Row(p.W, j, p.N, p.K))[k] * ScaleRow(p, j)[k / Group(p.groupK)]
  {
    hide Supplied, Row, ScaleRow, Area, Flat, Decode, Scale;
    Sizes(p);
    Inside(p, i, j, k);
    ScaleInRow(p, j, k);
  }

  lemma ExactIsSum(p: Problem, i: nat, j: nat)
    requires Supplied(p) && i < p.M && j < p.N
    ensures Exact(p, i, j) == Sum(Terms(p, i, j))
  {
    hide Supplied, Row, ScaleRow, Scaled, Area, Term, Terms, Decoded, CeilDiv;
    Sizes(p);
    var a, w, scale, terms := Row(p.A, i, p.M, p.K), Decoded(Row(p.W, j, p.N, p.K)), ScaleRow(p, j), Terms(p, i, j);
    forall k | 0 <= k < p.K ensures k / Group(p.groupK) < |scale| && terms[k] == a[k] * w[k] * scale[k / Group(p.groupK)] {
      TermIs(p, i, j, k);
    }
    ScaledIsSum(a, w, scale, Group(p.groupK), terms, p.K);
  }

  /** A finished cell holds the sum over k of the terms. */
  lemma ProductIs(c: seq<real>, p: Problem, i: nat, j: nat)
    requires Supplied(p) && i < p.M && j < p.N && CellDone(c, p, i, j)
    ensures Flat(i, j, p.N) < |c| && c[Flat(i, j, p.N)] == Sum(Terms(p, i, j))
  {
    hide Supplied, Exact, Terms, Sum, Flat;
    ExactIsSum(p, i, j);
  }

  lemma UnitTerm(p: Problem, i: nat, j: nat, k: nat, l: nat)
    requires Supplied(p) && i < p.M && j < p.N && k < p.K && l < p.K && OneAt(p.A, Flat(i, k, p.K))
    ensures Flat(j, k, p.K) < |p.W| && Term(p, i, j, l) == if l == k then Decode(p.W[Flat(j, k, p.K)]) * Scale(p, j, k) else 0.0
  {
    hide Supplied, Decode, Scale, Flat;
    Inside(p, i, j, l);
    Inside(p, i, j, k);
    FlatInjective(i, l, i, k, p.K);
  }

  /** With a single one at A[i, k], cell (i, j) shows weight (j, k) under its own scale. */
  lemma UnitProduct(c: seq<real>, p: Problem, i: nat, j: nat, k: nat)
    requires Supplied(p) && i < p.M && j < p.N && k < p.K && CellDone(c, p, i, j) && OneAt(p.A, Flat(i, k, p.K))
    ensures Flat(i, j, p.N) < |c| && Flat(j, k, p.K) < |p.W|
    ensures c[Flat(i, j, p.N)] == Decode(p.W[Flat(j, k, p.K)]) * Scale(p, j, k)
  {
    hide Supplied, Decode, Scale, Flat, CellDone, Terms, Term, OneAt;
    ProductIs(c, p, i, j);
    UnitTerm(p, i, j, k, k);
    var terms := Terms(p, i, j);
    forall l | 0 <= l < p.K ensures terms[l] == if l == k then Decode(p.W[Flat(j, k, p.K)]) * Scale(p, j, k) else 0.0 {
      UnitTerm(p, i, j, k, l);
    }
    OneTerm(terms, k, p.K);
  }

  /** The two NaN bytes, and only they, read as zero without being one. */
  lemma NaNIsZero(v: Byte)
    ensures IsNaN(v) <==> v % 128 == 127
    ensures IsNaN(v) ==> Decode(v) == 0.0
  {
  }

  /** Anchors of the format: one, the largest number and the smallest. */
  lemma E4M3Anchors()
    ensures E4M3(0x38) == 1.0 && E4M3(0x7E) == 448.0 && E4M3(0x01) == 1.0 / 512.0
  {
    SmallPowers();
    assert Pow2(0) == 1.0 && Pow2(4) == 16.0 && Pow2(8) == 256.0;
    assert Exponent(0x38) == 7 && Mantissa(0x38) == 0 && Exponent(0x7E) == 15 && Mantissa(0x7E) == 6;
    assert Exponent(0x01) == 0 && Mantissa(0x01) == 1;
    hide Exponent, Mantissa, Pow2;
  }

  /** The top bit is the sign, and one more in the exponent doubles a number. */
  lemma E4M3Steps(v: Byte)
    ensures v < 128 ==> E4M3(v + 128) == -E4M3(v)
    ensures 8 <= v < 119 ==> E4M3(v + 8) == 2.0 * E4M3(v)
  {
    if v < 128 { Negated(v); }
    if 8 <= v < 119 { NextExponent(v); }
  }

  lemma SameFields(v: Byte)
    requires v < 128
    ensures Exponent(v + 128) == Exponent(v) && Mantissa(v + 128) == Mantissa(v)
  {
  }

  lemma Negated(v: Byte)
    requires v < 128
    ensures E4M3(v + 128) == -E4M3(v)
  {
    hide Exponent, Mantissa, Pow2;
    SameFields(v);
  }

  lemma NextFields(v: Byte)
    requires 8 <= v < 119
    ensures 1 <= Exponent(v) && Exponent(v + 8) == Exponent(v) + 1 && Mantissa(v + 8) == Mantissa(v)
  {
  }

  lemma Twice(x: real, p: real)
    ensures x * (2.0 * p) == 2.0 * (x * p)
  {
  }

  lemma NextExponent(v: Byte)
    requires 8 <= v < 119
    ensures E4M3(v + 8) == 2.0 * E4M3(v)
  {
    hide Exponent, Mantissa, Pow2;
    NextFields(v);
    var e: int := Exponent(v);
    PowerStep(e - 7);
    Twice(1.0 + Mantissa(v) as real / 8.0, Pow2(e - 7));
  }

  lemma PowerStep(n: int)
    ensures Pow2(n + 1) == 2.0 * Pow2(n)
  {
  }
}
