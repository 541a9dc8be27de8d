/** The general AVX2 path of matmul_packed4_group, for any group size, and the scalar path. */
module Packed4General {
  import opened Packed4Decode
  import opened Packed4Rows
  import opened Tables
  import opened VectorSums

  function Min(a: nat, b: nat): nat {
    if a < b then a else b
  }

  /** How many of n elements the full chunks of 8 take. */
  function Full(n: int): int {
    n / 8 * 8
  }

  lemma FullIs(n: nat, c: nat)
    requires 8 * c <= n < 8 * c + 8
    ensures Full(n) == 8 * c
  {
  }

  /** The element whose nibble the general path pairs with activation k.  Inside a group the weights are
      fetched 8 at a time from byte k / 2, so in a group that starts at an odd k every full chunk is decoded
      from one element too early; the elements after the last full chunk are taken one by one. */
  function Source(gk: nat, K: nat, k: nat): (s: nat)
    requires gk > 0 && k < K
  {
    var kbase := Area(k / gk, gk);
    SplitAt(k, gk);
    if k - kbase < Full(Min(kbase + gk, K) - kbase) then k - kbase % 2 else k
  }

  lemma SplitAt(k: nat, gk: nat)
    requires gk > 0
    ensures Area(k / gk, gk) <= k < Area(k / gk, gk) + gk && k - Area(k / gk, gk) == k % gk
  {
  }

  function WeightsVia(wrow: Bytes, gk: nat, K: nat): Vec
    requires gk > 0 && K <= 2 * |wrow|
  {
    seq(K, k requires 0 <= k < K => E2M1(Nibble(wrow, if Source(gk, K, k) < K then Source(gk, K, k) else k)))
  }

  lemma SourceIn(gk: nat, K: nat, g: nat, k: nat)
    requires gk > 0 && Area(g, gk) <= k < Min(Area(g, gk) + gk, K)
    ensures k / gk == g
    ensures Source(gk, K, k) == (if k - Area(g, gk) < Full(Min(Area(g, gk) + gk, K) - Area(g, gk)) then k - Area(g, gk) % 2 else k)
  {
    FlatInverse(g, k - Area(g, gk), gk);
    assert k / gk == g;
  }

  // ----- When the general path is right.

  /** No group that starts at an odd position holds a full chunk of 8. */
  predicate Aligned(gk: nat, K: nat) {
    gk % 2 == 0 || gk < 8 || gk + 8 > K
  }

  lemma EvenMultiple(g: nat, gk: nat)
    ensures gk % 2 == 0 ==> Area(g, gk) % 2 == 0
  {
    if gk % 2 == 0 { assert Area(g, gk) == 2 * (g * (gk / 2)); }
  }

  lemma OddMultiple(g: nat, gk: nat)
    requires Area(g, gk) % 2 == 1
    ensures gk % 2 == 1 && gk <= Area(g, gk)
  {
    EvenMultiple(g, gk);
    MulLe(1, g, gk);
    assert g >= 1;
  }

  lemma AlignedSource(gk: nat, K: nat, k: nat)
    requires gk > 0 && k < K && Aligned(gk, K)
    ensures Source(gk, K, k) == k
  {
    SplitAt(k, gk);
    var kbase := Area(k / gk, gk);
    if kbase % 2 == 1 { OddMultiple(k / gk, gk); }
  }

  lemma MisalignedSource(gk: nat, K: nat)
    requires gk > 0 && !Aligned(gk, K)
    ensures Source(gk, K, gk) == gk - 1
  {
    SourceIn(gk, K, 1, gk);
  }

  /** Activations zero but for a one at p: what is left is the weight and scale at p. */
  lemma {:induction false} UnitScaled(a: Vec, w: Vec, scale: Vec, gk: nat, p: nat, n: nat)
    requires gk > 0 && n <= |a| && n <= |w| && n <= Area(|scale|, gk) && p < |a| && p < |w| && p < Area(|scale|, gk)
    requires forall k :: 0 <= k < |a| ==> a[k] == if k == p then 1.0 else 0.0
    ensures p / gk < |scale|
    ensures Scaled(a, w, scale, gk, n) == if p < n then w[p] * scale[p / gk] else 0.0
  {
    Unflat(p, gk, |scale|);
    if n > 0 { UnitScaled(a, w, scale, gk, p, n - 1); }
  }

  /** The general path computes the elementwise definition for all data exactly when the groups are aligned. */
  lemma AlignedIff(gk: nat, K: nat)
    requires gk > 0 && K % 2 == 0
    ensures Aligned(gk, K) <==> forall a: Vec, wrow: Bytes, scale: Vec :: Agree(a, wrow, scale, gk, K)
  {
    if Aligned(gk, K) {
      forall a: Vec, wrow: Bytes, scale: Vec ensures Agree(a, wrow, scale, gk, K) {
        if Fits(a, wrow, scale, gk, K) { AlignedWeights(wrow, gk, K); }
      }
    } else {
      var a, wrow, scale := Disagreement(gk, K);
    }
  }

  ghost predicate Fits(a: Vec, wrow: Bytes, scale: Vec, gk: nat, K: nat) {
    gk > 0 && |a| == K == 2 * |wrow| && K <= Area(|scale|, gk)
  }

  ghost predicate Agree(a: Vec, wrow: Bytes, scale: Vec, gk: nat, K: nat) {
    Fits(a, wrow, scale, gk, K) ==> Scaled(a, WeightsVia(wrow, gk, K), scale, gk, K) == Scaled(a, Weights(wrow, K), scale, gk, K)
  }

  lemma AlignedWeights(wrow: Bytes, gk: nat, K: nat)
    requires gk > 0 && K == 2 * |wrow| && Aligned(gk, K)
    ensures WeightsVia(wrow, gk, K) == Weights(wrow, K)
  {
    hide E2M1, Nibble, Source, Aligned;
    forall k | 0 <= k < K ensures WeightsVia(wrow, gk, K)[k] == Weights(wrow, K)[k] { AlignedSource(gk, K, k); }
  }

  /** A row of zeros with weight 1.0 at position gk, against a unit vector there: the sum should be 1, and the
      general path makes it 0. */
  lemma Disagreement(gk: nat, K: nat) returns (a: Vec, wrow: Bytes, scale: Vec)
    requires gk > 0 && K % 2 == 0 && !Aligned(gk, K)
    ensures Fits(a, wrow, scale, gk, K) && !Agree(a, wrow, scale, gk, K)
  {
    a := seq(K, k => if k == gk then 1.0 else 0.0);
    wrow := seq(K / 2, i => if i == gk / 2 then 0x20 else 0x00);
    scale := seq(K, _ => 1.0);
    MulLe(1, gk, K);
    assert Area(K, gk) >= K;
    MisalignedSource(gk, K);
    assert Nibble(wrow, gk) == 2 && Nibble(wrow, gk - 1) == 0;
    TwoValues();
    hide Source, Nibble, E2M1;
    UnitScaled(a, Weights(wrow, K), scale, gk, gk, K);
    UnitScaled(a, WeightsVia(wrow, gk, K), scale, gk, gk, K);
    assert Weights(wrow, K)[gk] == E2M1(2) && WeightsVia(wrow, gk, K)[gk] == E2M1(0);
  }

  lemma TwoValues()
    ensures E2M1(2) == 1.0 && E2M1(0) == 0.0
  {
    TablesAgree(2);
    TablesAgree(0);
  }

  // ----- The loops.

  lemma FmaSwap(a: Vec, b: Vec, c: Vec)
    requires |a| == |b| == |c|
    ensures Fma(a, b, c) == Fma(b, a, c)
  {
  }

  /** A chunk of 8 weights from byte k / 2 on. */
  lemma ChunkWeights(wrow: Bytes, gk: nat, K: nat, g: nat, c: nat, w: Vec) returns (wv: Vec)
    requires gk > 0 && K <= 2 * |wrow| && w == WeightsVia(wrow, gk, K) && Area(g, gk) + 8 * c + 8 <= Min(Area(g, gk) + gk, K)
    ensures var k := Area(g, gk) + 8 * c;
      k / 2 + 4 <= |wrow| && wv == DecodeGeneral(wrow[k / 2..k / 2 + 4]) && |wv| == 8 && k + 8 <= |w|
    ensures forall t :: 0 <= t < 8 ==> wv[t] == w[Area(g, gk) + 8 * c + t]
  {
    hide DecodeGeneral, E2M1, Nibble, Source, Area, Min, Full;
    MinIs(Area(g, gk) + gk, K);
    var k := Area(g, gk) + 8 * c;
    var raw := wrow[k / 2..k / 2 + 4];
    wv := DecodeGeneral(raw);
    GeneralIsNatural(raw, 0);
    forall t | 0 <= t < 8 ensures wv[t] == w[k + t] {
      GeneralIsNatural(raw, t);
      NibbleInside(wrow, k / 2, 4, t);
      ChunkSource(gk, K, g, c, t);
    }
  }

  lemma ChunkSource(gk: nat, K: nat, g: nat, c: nat, t: nat)
    requires gk > 0 && t < 8 && Area(g, gk) + 8 * c + 8 <= Min(Area(g, gk) + gk, K)
    ensures var k := Area(g, gk) + 8 * c; k + t < K && Source(gk, K, k + t) == 2 * (k / 2) + t
  {
    hide Area, Source, Full, Min;
    var kbase := Area(g, gk);
    MinIs(kbase + gk, K);
    SourceIn(gk, K, g, kbase + 8 * c + t);
    InFullChunk(Min(kbase + gk, K) - kbase, c, t);
    EvenShift(kbase, c);
  }

  lemma InFullChunk(n: nat, c: nat, t: nat)
    requires 8 * c + 8 <= n && t < 8
    ensures 8 * c + t < Full(n)
  {
  }

  lemma EvenShift(x: nat, c: nat)
    ensures 2 * ((x + 8 * c) / 2) == x + 8 * c - x % 2
  {
  }

  lemma TailWeight(wrow: Bytes, gk: nat, K: nat, g: nat, k: nat, w: Vec)
    requires gk > 0 && K <= 2 * |wrow| && w == WeightsVia(wrow, gk, K)
    requires Area(g, gk) <= k < Min(Area(g, gk) + gk, K)
    requires k - Area(g, gk) >= Full(Min(Area(g, gk) + gk, K) - Area(g, gk))
    ensures MagTimesSign(Nibble(wrow, k)) == w[k]
  {
    hide E2M1, MagTimesSign, Source, Area, Full;
    SourceIn(gk, K, g, k);
    NibbleSmall(wrow, k);
    TablesAgree(Nibble(wrow, k));
  }

  lemma NibbleSmall(wrow: Bytes, k: nat)
    requires k / 2 < |wrow|
    ensures Nibble(wrow, k) < 16
  {
    NibbleBits(wrow[k / 2], 0);
  }

  /** One group: vector chunks, then the tail. */
  method GroupGeneral(a: Vec, wrow: Bytes, gk: nat, K: nat, g: nat, kend: nat, ghost w: Vec) returns (pre: Vec, preScalar: real)
    requires gk > 0 && |a| == K <= 2 * |wrow| && Area(g, gk) < K && kend == Min(Area(g, gk) + gk, K)
    requires w == WeightsVia(wrow, gk, K) && |w| == K
    ensures |pre| == 8 && Sum(pre) + preScalar == Dot(a, w, Area(g, gk), kend)
  {
    hide DecodeGeneral, WeightsVia, Source, Area, MagTimesSign, Sum, Dot, Min, Nibble, Full;
    var kbase := Area(g, gk);
    MinIs(kbase + gk, K);
    pre := Zero(8);
    ZeroSum(8);
    DotNone(a, w, kbase);
    var k := kbase;
    ghost var c := 0;
    while k + 8 <= kend
      invariant k == kbase + 8 * c <= kend
      invariant |pre| == 8 && Sum(pre) == Dot(a, w, kbase, k)
    {
      ghost var wv := ChunkWeights(wrow, gk, K, g, c, w);
      pre := Chunk(pre, a, k, DecodeGeneral(wrow[k / 2..k / 2 + 4]), w);
      DotSplit(a, w, kbase, k, k + 8);
      k, c := k + 8, c + 1;
    }
    FullIs(kend - kbase, c);
    preScalar := Tail(a, wrow, gk, K, g, k, kend, w);
    DotSplit(a, w, kbase, k, kend);
  }

  lemma MinIs(a: nat, b: nat)
    ensures Min(a, b) <= a && Min(a, b) <= b && (Min(a, b) == a || Min(a, b) == b)
  {
  }

  lemma DotNone(a: Vec, w: Vec, lo: nat)
    requires lo <= |a| && lo <= |w|
    ensures Dot(a, w, lo, lo) == 0.0
  {
  }

  method Tail(a: Vec, wrow: Bytes, gk: nat, K: nat, g: nat, from: nat, kend: nat, ghost w: Vec) returns (preScalar: real)
    requires gk > 0 && |a| == K <= 2 * |wrow| && kend == Min(Area(g, gk) + gk, K) && Area(g, gk) <= from <= kend
    requires w == WeightsVia(wrow, gk, K) && |w| == K && from - Area(g, gk) == Full(kend - Area(g, gk))
    ensures preScalar == Dot(a, w, from, kend)
  {
    hide WeightsVia, Source, Area, MagTimesSign, Nibble, Full;
    preScalar := 0.0;
    for k := from to kend
      invariant preScalar == Dot(a, w, from, k)
    {
      TailWeight(wrow, gk, K, g, k, w);
      var v := MagTimesSign(Nibble(wrow, k));
      preScalar := preScalar + a[k] * v;
    }
  }

  method Chunk(pre: Vec, a: Vec, k: nat, wv: Vec, ghost w: Vec) returns (r: Vec)
    requires |pre| == |wv| == 8 && k + 8 <= |a| && |a| == |w| && forall t :: 0 <= t < 8 ==> wv[t] == w[k + t]
    ensures |r| == 8 && Sum(r) == Sum(pre) + Dot(a, w, k, k + 8)
  {
    r := Fma(a[k..k + 8], wv, pre);
    FmaSwap(a[k..k + 8], wv, pre);
    SumFma(wv, a, w, k, pre, 8);
  }

  method RowGeneral(a: Vec, wrow: Bytes, scale: Vec, gk: nat, K: nat) returns (acc: real)
    requires gk > 0 && |a| == K <= 2 * |wrow| && K <= Area(|scale|, gk)
    ensures acc == Scaled(a, WeightsVia(wrow, gk, K), scale, gk, K)
  {
    hide WeightsVia, Area, Scaled, Sum, Dot;
    ghost var w := WeightsVia(wrow, gk, K);
    ViaLength(wrow, gk, K);
    var total := Zero(8);
    ZeroSum(8);
    NoneScaled(a, w, scale, gk);
    var kbase, g := 0, 0;
    while kbase < K
      invariant kbase == Area(g, gk) && |total| == 8
      invariant Sum(total) == Scaled(a, w, scale, gk, Min(kbase, K))
      decreases K - kbase
    {
      var kend := Min(kbase + gk, K);
      var pre, preScalar := GroupGeneral(a, wrow, gk, K, g, kend, w);
      GroupBelow(g, gk, |scale|, K);
      DeferScale(a, w, scale, gk, g, kend);
      total := Fold(total, pre, preScalar, scale[g]);
      AreaAdd(g, 1, gk);
      kbase, g := kbase + gk, g + 1;
    }
    acc := SumLanes(total);
  }

  lemma ViaLength(wrow: Bytes, gk: nat, K: nat)
    requires gk > 0 && K <= 2 * |wrow|
    ensures |WeightsVia(wrow, gk, K)| == K
  {
  }

  lemma NoneScaled(a: Vec, w: Vec, scale: Vec, gk: nat)
    requires gk > 0
    ensures Area(0, gk) == 0 && Scaled(a, w, scale, gk, 0) == 0.0
  {
  }

  lemma GroupBelow(g: nat, gk: nat, groups: nat, K: nat)
    requires Area(g, gk) < K <= Area(groups, gk)
    ensures g < groups
  {
    AreaLe(groups, g, gk);
  }

  method SumLanes(total: Vec) returns (acc: real)
    requires |total| == 8
    ensures acc == Sum(total)
  {
    acc := 0.0;
    for t := 0 to 8
      invariant acc == SumTo(total, t)
    {
      acc := acc + total[t];
    }
  }

  /** The portable path: elementwise, with the scale looked up at the start of the group of k. */
  method RowScalar(a: Vec, wrow: Bytes, scale: Vec, gk: nat, K: nat) returns (acc: real)
    requires gk > 0 && |a| == K <= 2 * |wrow| && K <= Area(|scale|, gk)
    ensures acc == Scaled(a, Weights(wrow, K), scale, gk, K)
  {
    hide Weights, Area, Scaled, Nibble, Look, E2M1;
    ghost var w := Weights(wrow, K);
    NoneScaled(a, w, scale, gk);
    WeightsLength(wrow, K);
    acc := 0.0;
    for k := 0 to K
      invariant acc == Scaled(a, w, scale, gk, k)
    {
      GroupStart(k, gk, |scale|);
      ScalarStep(a, wrow, w, scale, gk, k);
      acc := acc + a[k] * Look(E2M1_TABLE, Nibble(wrow, k)) * scale[(k - k % gk) / gk];
    }
  }

  lemma ScalarStep(a: Vec, wrow: Bytes, w: Vec, scale: Vec, gk: nat, k: nat)
    requires gk > 0 && k < |a| == |w| <= 2 * |wrow| && w == Weights(wrow, |a|) && |a| <= Area(|scale|, gk) && k / gk < |scale|
    ensures Scaled(a, w, scale, gk, k + 1)
         == Scaled(a, w, scale, gk, k) + a[k] * Look(E2M1_TABLE, Nibble(wrow, k)) * scale[k / gk]
  {
    hide Nibble, Look, E2M1, Area;
    NibbleSmall(wrow, k);
    TablesAgree(Nibble(wrow, k));
  }

  lemma GroupStart(k: nat, gk: nat, groups: nat)
    requires gk > 0 && k < Area(groups, gk)
    ensures (k - k % gk) / gk == k / gk < groups
  {
    Unflat(k, gk, groups);
    FlatInverse(k / gk, 0, gk);
    assert k - k % gk == Flat(k / gk, 0, gk);
  }
}
