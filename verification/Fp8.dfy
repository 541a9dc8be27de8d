/** FP8 weights: the E4M3 bytes, and matmul_fp8_quant with the scale of each group applied once per group. */
module Fp8 {
  import opened ScaleTables
  import opened Tables
  import opened VectorSums

  type Byte = b: int | 0 <= b < 256

  // ----- E4M3: one sign bit, four exponent bits of bias 7, three mantissa bits.

  function Exponent(v: Byte): nat {
    v / 8 % 16
  }

  function Mantissa(v: Byte): nat {
    v % 8
  }

  predicate IsNaN(v: Byte) {
    v == 0x7F || v == 0xFF
  }

  function Unsigned(v: Byte): real {
    var m := Mantissa(v) as real / 8.0;
    if Exponent(v) == 0 then (if Mantissa(v) == 0 then 0.0 else m * Pow2(-7)) else (1.0 + m) * Pow2(Exponent(v) - 7)
  }

  /** e4m3_to_fp32_scalar, also the content of the lookup table: NaN reads as zero. */
  function Decode(v: Byte): real {
    if IsNaN(v) then 0.0 else if v >= 128 then -Unsigned(v) else Unsigned(v)
  }

  /** The format's own value: subnormals have the exponent of the smallest normal numbers. */
  function E4M3(v: Byte): real {
    var m := Mantissa(v) as real / 8.0;
    var magnitude := if Exponent(v) == 0 then m * Pow2(-6) else (1.0 + m) * Pow2(Exponent(v) - 7);
    if v >= 128 then -magnitude else magnitude
  }

  /** The code reads every number of the format but the fourteen subnormals, which come out half as large. */
  lemma DecodeIs(v: Byte)
    requires !IsNaN(v)
    ensures Decode(v) == if Exponent(v) == 0 then E4M3(v) / 2.0 else E4M3(v)
  {
    SmallPowers();
    hide Pow2, Exponent, Mantissa;
  }

  lemma SmallPowers()
    ensures Pow2(-6) == 1.0 / 64.0 && Pow2(-7) == 1.0 / 128.0
  {
    assert Pow2(-3) == 1.0 / 8.0;
    assert Pow2(-6) == Pow2(-3) / 8.0;
  }

  lemma DecodeExactIff(v: Byte)
    requires !IsNaN(v)
    ensures Decode(v) == E4M3(v) <==> !(Exponent(v) == 0 && Mantissa(v) > 0)
  {
    SmallPowers();
    DecodeIs(v);
    hide Pow2, Exponent, Mantissa, Decode;
  }

  function Decoded(row: seq<Byte>): (r: Vec)
    ensures |r| == |row|
  {
    seq(|row|, k requires 0 <= k < |row| => Decode(row[k]))
  }

  // ----- One output cell.

  lemma NoneYet(a: Vec, wrow: seq<Byte>, from: nat)
    requires from <= |a| == |wrow|
    ensures Dot(a, Decoded(wrow), from, from) == 0.0
  {
  }

  lemma OneMore(a: Vec, wrow: seq<Byte>, from: nat, k: nat)
    requires from <= k < |a| == |wrow|
    ensures Dot(a, Decoded(wrow), from, k + 1) == Dot(a, Decoded(wrow), from, k) + a[k] * Decode(wrow[k])
  {
    hide Decode;
  }

  method Eight(a: Vec, wrow: seq<Byte>, ghost from: nat, k: nat, gacc: Vec) returns (r: Vec)
    requires from <= k && k + 8 <= |a| == |wrow| && |gacc| == 8 && Sum(gacc) == Dot(a, Decoded(wrow), from, k)
    ensures |r| == 8 && Sum(r) == Dot(a, Decoded(wrow), from, k + 8)
  {
    hide Decode, Dot;
    var wv := Decoded(wrow[k..k + 8]);
    SumFma(wv, a, Decoded(wrow), k, gacc, 8);
    DotSplit(a, Decoded(wrow), from, k, k + 8);
    r := Fma(wv, a[k..k + 8], gacc);
  }

  /** Eight lanes at a time, then the group's tail in a scalar: together the group's dot product. */
  method GroupSum(a: Vec, wrow: seq<Byte>, from: nat, to: nat) returns (gacc: Vec, gscalar: real)
    requires from <= to <= |a| == |wrow|
    ensures |gacc| == 8 && Sum(gacc) + gscalar == Dot(a, Decoded(wrow), from, to)
  {
    hide Decoded, Dot, Fma;
    ghost var w := Decoded(wrow);
    var k := from;
    gacc := Zero(8);
    ZeroSum(8);
    NoneYet(a, wrow, from);
    while k + 8 <= to
      invariant from <= k <= to && |gacc| == 8 && Sum(gacc) == Dot(a, w, from, k)
    {
      gacc := Eight(a, wrow, from, k, gacc);
      k := k + 8;
    }
    gscalar := 0.0;
    while k < to
      invariant from <= k <= to && Sum(gacc) + gscalar == Dot(a, w, from, k)
    {
      OneMore(a, wrow, from, k);
      gscalar := gscalar + a[k] * Decode(wrow[k]);
      k := k + 1;
    }
  }

  /** One cell of the product: any group length, whether or not it divides K or the vector width. */
  method Cell(a: Vec, wrow: seq<Byte>, srow: Vec, gk: nat) returns (acc: real)
    requires 0 < gk && |a| == |wrow| && |srow| == CeilDiv(|a|, gk)
    ensures |a| <= Area(|srow|, gk) && acc == Scaled(a, Decoded(wrow), srow, gk, |a|)
  {
    hide Decoded, Scaled, CeilDiv, Area;
    ghost var w := Decoded(wrow);
    CeilCovers(|a|, gk);
    var total := Zero(8);
    ZeroSum(8);
    var kbase := 0;
    ghost var g := 0;
    NothingScaled(a, w, srow, gk);
    while kbase < |a|
      invariant |total| == 8 && kbase == Area(g, gk)
      invariant Reached(kbase, |a|) <= Area(|srow|, gk)
      invariant Sum(total) == Scaled(a, w, srow, gk, Reached(kbase, |a|))
      decreases |a| - kbase
    {
      GroupStep(g, gk, |srow|, |a|);
      var kend := if kbase + gk < |a| then kbase + gk else |a|;
      var gacc, gscalar := GroupSum(a, wrow, kbase, kend);
      var scale := srow[kbase / gk];
      DeferScale(a, w, srow, gk, g, kend);
      total := Fold(total, gacc, gscalar, scale);
      kbase, g := kbase + gk, g + 1;
    }
    acc := 0.0;
    for t := 0 to 8
      invariant acc == SumTo(total, t)
    {
      acc := acc + total[t];
    }
  }

  function Reached(kbase: nat, n: nat): nat {
    if kbase < n then kbase else n
  }

  lemma NothingScaled(a: Vec, w: Vec, srow: Vec, gk: nat)
    requires 0 < gk && |a| == |w|
    ensures Area(0, gk) == 0 && Scaled(a, w, srow, gk, 0) == 0.0
  {
  }

  lemma GroupStep(g: nat, gk: nat, groups: nat, n: nat)
    requires 0 < gk && Area(g, gk) < n <= Area(groups, gk)
    ensures g < groups && Area(g, gk) / gk == g && Area(g + 1, gk) == Area(g, gk) + gk
  {
    AreaAdd(g, 1, gk);
    AreaLe(groups, g, gk);
    FlatInverse(g, 0, gk);
  }

  // ----- The whole product.

  /** The arguments of matmul_fp8_quant, A already widened to floats. */
  datatype Problem = Problem(A: Vec, W: seq<Byte>, S: Vec, M: nat, N: nat, K: nat, groupN: int, groupK: int)

  predicate Supplied(p: Problem) {
    && |p.A| == Area(p.M, p.K) && |p.W| == Area(p.N, p.K)
    && |p.S| == Area(CeilDiv(p.N, Group(p.groupN)), CeilDiv(p.K, Group(p.groupK)))
  }

  function Row<T>(t: seq<T>, i: nat, rows: nat, width: nat): (r: seq<T>)
    requires i < rows && |t| == Area(rows, width)
    ensures |r| == width
  {
    AreaLe(i + 1, rows, width);
    AreaAdd(i, 1, width);
    t[Area(i, width)..Area(i, width) + width]
  }

  /** The scales of weight row j. */
  function ScaleRow(p: Problem, j: nat): (r: Vec)
    requires Supplied(p) && j < p.N
    ensures |r| == CeilDiv(p.K, Group(p.groupK)) && p.K <= Area(|r|, Group(p.groupK))
  {
    CeilAbove(p.N, Group(p.groupN), j);
    CeilCovers(p.K, Group(p.groupK));
    Row(p.S, j / Group(p.groupN), CeilDiv(p.N, Group(p.groupN)), CeilDiv(p.K, Group(p.groupK)))
  }

  /** The elementwise definition: sum over k of A[i, k] * e4m3(W[j, k]) * S[j / gn, k / gk]. */
  function Exact(p: Problem, i: nat, j: nat): real
    requires Supplied(p) && i < p.M && j < p.N
  {
    Scaled(Row(p.A, i, p.M, p.K), Decoded(Row(p.W, j, p.N, p.K)), ScaleRow(p, j), Group(p.groupK), p.K)
  }

  ghost predicate CellDone(c: seq<real>, p: Problem, i: nat, j: nat)
    requires Supplied(p) && i < p.M && j < p.N
  {
    Flat(i, j, p.N) < |c| && c[Flat(i, j, p.N)] == Exact(p, i, j)
  }

  /** The first `done` cells of the output hold the product, the others are as before. */
  ghost predicate Filled(c: seq<real>, c0: seq<real>, p: Problem, done: nat) {
    && Supplied(p) && |c| == |c0| && done <= Area(p.M, p.N) <= |c|
    && (forall i: nat, j: nat :: i < p.M && j < p.N && Flat(i, j, p.N) < done ==> CellDone(c, p, i, j))
    && (forall q :: done <= q < |c| ==> c[q] == c0[q])
  }

  lemma FilledStep(c: seq<real>, c0: seq<real>, p: Problem, i: nat, j: nat)
    requires Filled(c, c0, p, Flat(i, j, p.N)) && i < p.M && j < p.N
    ensures Flat(i, j, p.N) < |c|
    ensures Filled(c[Flat(i, j, p.N) := Exact(p, i, j)], c0, p, Flat(i, j, p.N) + 1)
  {
    hide Exact, Flat, Area, Supplied;
    FlatBound(i, j, p.N, p.M);
    var c' := c[Flat(i, j, p.N) := Exact(p, i, j)];
    forall i': nat, j': nat | i' < p.M && j' < p.N && Flat(i', j', p.N) < Flat(i, j, p.N) + 1
      ensures CellDone(c', p, i', j')
    {
      FlatInjective(i, j, i', j', p.N);
      if (i', j') != (i, j) { assert CellDone(c, p, i', j'); }
    }
  }

  lemma RowStart(i: nat, w: nat)
    ensures Flat(i, 0, w) == Area(i, w) && Area(i + 1, w) == Flat(i, w, w)
  {
  }

  lemma NextCell(i: nat, j: nat, w: nat)
    ensures Flat(i, j + 1, w) == Flat(i, j, w) + 1
  {
  }

  /** The whole GEMM: every cell of C[0..M][0..N) is the elementwise product, the rest of C is untouched. */
  method MatmulFp8Quant(p: Problem, C: array<real>)
    requires Supplied(p) && Area(p.M, p.N) <= C.Length
    modifies C
    ensures forall i: nat, j: nat :: i < p.M && j < p.N ==> CellDone(C[..], p, i, j)
    ensures forall q :: Area(p.M, p.N) <= q < C.Length ==> C[q] == old(C[q])
  {
    hide Filled, Exact, Flat, Area, Scaled, CeilDiv, CellDone;
    ghost var c0 := C[..];
    FilledNone(c0, p);
    for i := 0 to p.M
      invariant Filled(C[..], c0, p, Area(i, p.N))
    {
      RowStart(i, p.N);
      for j := 0 to p.N
        invariant Filled(C[..], c0, p, Flat(i, j, p.N))
      {
        var v := Cell(Row(p.A, i, p.M, p.K), Row(p.W, j, p.N, p.K), ScaleRow(p, j), Group(p.groupK));
        CellIsExact(p, i, j);
        FilledStep(C[..], c0, p, i, j);
        NextCell(i, j, p.N);
        ghost var c := C[..];
        C[Flat(i, j, p.N)] := v;
        assert C[..] == c[Flat(i, j, p.N) := v];
      }
    }
    FilledAll(C[..], c0, p);
  }

  lemma CellIsExact(p: Problem, i: nat, j: nat)
    requires Supplied(p) && i < p.M && j < p.N
    ensures Exact(p, i, j) == Scaled(Row(p.A, i, p.M, p.K), Decoded(Row(p.W, j, p.N, p.K)), ScaleRow(p, j), Group(p.groupK), p.K)
  {
  }

  lemma FilledNone(c: seq<real>, p: Problem)
    requires Supplied(p) && Area(p.M, p.N) <= |c|
    ensures Filled(c, c, p, Area(0, p.N))
  {
    AreaAdd(0, 0, p.N);
  }

  lemma FilledAll(c: seq<real>, c0: seq<real>, p: Problem)
    requires Filled(c, c0, p, Area(p.M, p.N))
    ensures forall i: nat, j: nat :: i < p.M && j < p.N ==> CellDone(c, p, i, j)
    ensures forall q :: Area(p.M, p.N) <= q < |c| ==> c[q] == c0[q]
  {
    hide Exact, Area, Flat;
    forall i: nat, j: nat | i < p.M && j < p.N ensures CellDone(c, p, i, j) {
      FlatBound(i, j, p.N, p.M);
    }
  }
}
