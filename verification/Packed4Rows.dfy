/** The inner loops of matmul_packed4_group: one packed weight row against one or four rows of activations,
    with partial accumulators and one scale per group, on every instruction set. */
module Packed4Rows {
  import opened Packed4Decode
  import opened VectorSums

  /** The first n weights of a packed row, before scaling. */
  function Weights(wrow: Bytes, n: nat): Vec
    requires n <= 2 * |wrow|
  {
    seq(n, k requires 0 <= k < n => E2M1(Nibble(wrow, k)))
  }

  // ----- Horizontal sums, in the order of the instructions.

  /** hsum256: add the 128-bit halves, then two horizontal additions. */
  function Hsum256(v: Vec): real
    requires |v| == 8
  {
    var s := Add(v[..4], v[4..]);
    (s[0] + s[1]) + (s[2] + s[3])
  }

  function Hsum512(v: Vec): real
    requires |v| == 16
  {
    Hsum256(Add(v[..8], v[8..]))
  }

  lemma Hsum256IsSum(v: Vec)
    requires |v| == 8
    ensures Hsum256(v) == Sum(v)
  {
    assert SumTo(v, 1) == v[0];
    assert SumTo(v, 3) == v[0] + v[1] + v[2];
    assert SumTo(v, 5) == SumTo(v, 3) + v[3] + v[4];
    assert SumTo(v, 7) == SumTo(v, 5) + v[5] + v[6];
  }

  lemma {:induction false} SumHalves(v: Vec, m: nat, n: nat)
    requires m + n <= |v|
    ensures SumTo(v, m + n) == SumTo(v[..m], m) + SumTo(v[m..], n)
    decreases m + n
  {
    if n > 0 { SumHalves(v, m, n - 1); } else if m > 0 { SumPrefix(v, m, m); }
  }

  lemma {:induction false} SumPrefix(v: Vec, m: nat, n: nat)
    requires n <= m <= |v|
    ensures SumTo(v[..m], n) == SumTo(v, n)
  {
    if n > 0 { SumPrefix(v, m, n - 1); }
  }

  lemma Hsum512IsSum(v: Vec)
    requires |v| == 16
    ensures Hsum512(v) == Sum(v)
  {
    Hsum256IsSum(Add(v[..8], v[8..]));
    SumAdd(v[..8], v[8..], 8);
    SumHalves(v, 8, 8);
  }

  /** What group g of 32 adds to the scaled sum. */
  function Contribution(a: Vec, w: Vec, g: nat, s: real): real
    requires 32 * g + 32 <= |a| && 32 * g + 32 <= |w|
  {
    Dot(a, w, 32 * g, 32 * g + 32) * s
  }

  // ----- AVX512: natural order, four partial accumulators per token.

  /** d = w0 * a[0..16] + w1 * a[16..32]; acc + d * scale. */
  method GroupAvx512(acc: Vec, w0: Vec, w1: Vec, a: Vec, g: nat, s: real, ghost w: Vec) returns (r: Vec)
    requires |acc| == |w0| == |w1| == 16 && 32 * g + 32 <= |a| && 32 * g + 32 <= |w|
    requires forall i :: 0 <= i < 16 ==> w0[i] == w[32 * g + i] && w1[i] == w[32 * g + 16 + i]
    ensures |r| == 16 && Sum(r) == Sum(acc) + Contribution(a, w, g, s)
  {
    var base := g * 32;
    var d := Mul(w0, a[base..base + 16]);
    MulIsFma(w0, a[base..base + 16]);
    SumFma(w0, a, w, base, Zero(16), 16);
    SumZero(16, 16);
    ghost var d0 := d;
    d := Fma(w1, a[base + 16..base + 32], d);
    SumFma(w1, a, w, base + 16, d0, 16);
    DotSplit(a, w, base, base + 16, base + 32);
    r := FmaScalar(d, s, acc);
    SumFmaScalar(d, s, acc, 16);
  }

  /** The decoded registers of group g are the weights 32 * g to 32 * g + 31. */
  lemma GroupWeights512(wrow: Bytes, n: nat, g: nat)
    requires n <= 2 * |wrow| && 32 * g + 32 <= n
    ensures var (w0, w1) := DecodeAvx512(wrow[16 * g..16 * g + 16]);
      && |w0| == |w1| == 16
      && forall i :: 0 <= i < 16 ==> w0[i] == Weights(wrow, n)[32 * g + i] && w1[i] == Weights(wrow, n)[32 * g + 16 + i]
  {
    hide DecodeAvx512, E2M1, Nibble;
    var raw := wrow[16 * g..16 * g + 16];
    Avx512IsNatural(raw, 0, 0, 0);
    var (w0, w1) := DecodeAvx512(raw);
    forall i | 0 <= i < 16 ensures w0[i] == Weights(wrow, n)[32 * g + i] && w1[i] == Weights(wrow, n)[32 * g + 16 + i] {
      Avx512IsNatural(raw, 0, i / 8, i % 8);
      Avx512IsNatural(raw, 1, i / 8, i % 8);
      NibbleInside(wrow, 16 * g, 16, i);
      NibbleInside(wrow, 16 * g, 16, 16 + i);
    }
  }

  lemma NibbleInside(row: Bytes, from: nat, len: nat, k: nat)
    requires from + len <= |row| && k < 2 * len
    ensures Nibble(row[from..from + len], k) == Nibble(row, 2 * from + k)
  {
  }

  /** Four partial accumulators of 16 lanes for each of four tokens. */
  ghost predicate Partials(acc: seq<seq<Vec>>) {
    |acc| == 4 && forall t :: 0 <= t < 4 ==> |acc[t]| == 4 && forall p :: 0 <= p < 4 ==> |acc[t][p]| == 16
  }

  ghost function Total(acc: seq<Vec>): real
    requires |acc| == 4
  {
    Sum(acc[0]) + Sum(acc[1]) + Sum(acc[2]) + Sum(acc[3])
  }

  lemma TotalStep(acc: seq<Vec>, p: nat, v: Vec)
    requires |acc| == 4 && p < 4
    ensures Total(acc[p := v]) == Total(acc) - Sum(acc[p]) + Sum(v)
  {
  }

  /** The 4-token block: every group is decoded once and folded into partial g % 4 of each token. */
  method Block4Avx512(a: seq<Vec>, wrow: Bytes, scale: Vec, groups: nat) returns (sums: seq<real>)
    requires |a| == 4 && |wrow| == 16 * groups && |scale| == groups && forall t :: 0 <= t < 4 ==> |a[t]| == 32 * groups
    ensures |sums| == 4
    ensures forall t :: 0 <= t < 4 ==> sums[t] == Scaled(a[t], Weights(wrow, 32 * groups), scale, 32, 32 * groups)
  {
    hide Sum, DecodeAvx512, Weights, Total, Scaled, Done, Contribution;
    var acc := seq(4, _ => seq(4, _ => Zero(16)));
    ZeroTotal(acc);
    ghost var w := Weights(wrow, 32 * groups);
    WeightsLength(wrow, 32 * groups);
    forall t | 0 <= t < 4 ensures Done(a[t], w, scale, 0) == 0.0 { DoneNone(a[t], w, scale); }
    for g := 0 to groups
      invariant Partials(acc)
      invariant forall t :: 0 <= t < 4 ==> Total(acc[t]) == Done(a[t], w, scale, g)
    {
      var p := g % 4;
      var (w0, w1) := DecodeAvx512(wrow[16 * g..16 * g + 16]);
      GroupWeights512(wrow, 32 * groups, g);
      for t := 0 to 4
        invariant Partials(acc)
        invariant forall u :: 0 <= u < 4 ==> Total(acc[u]) == Done(a[u], w, scale, if u < t then g + 1 else g)
      {
        var d := GroupAvx512(acc[t][p], w0, w1, a[t], g, scale[g], w);
        TotalStep(acc[t], p, d);
        DoneStep(a[t], w, scale, g);
        ghost var before := acc;
        acc := acc[t := acc[t][p := d]];
        assert forall u :: 0 <= u < 4 && u != t ==> acc[u] == before[u];
      }
    }
    sums := [];
    for t := 0 to 4
      invariant |sums| == t && forall u :: 0 <= u < t ==> sums[u] == Scaled(a[u], w, scale, 32, 32 * groups)
    {
      var s := Add(Add(acc[t][0], acc[t][1]), Add(acc[t][2], acc[t][3]));
      TotalIs(acc[t]);
      DoneAll(a[t], w, scale, groups);
      sums := sums + [Hsum512(s)];
    }
  }

  /** The scaled sum over the first g groups of 32. */
  ghost function Done(a: Vec, w: Vec, scale: Vec, g: nat): real
    requires g <= |scale| && 32 * g <= |a| && 32 * g <= |w|
  {
    Scaled(a, w, scale, 32, 32 * g)
  }

  lemma DoneNone(a: Vec, w: Vec, scale: Vec)
    ensures Done(a, w, scale, 0) == 0.0
  {
  }

  lemma DoneAll(a: Vec, w: Vec, scale: Vec, g: nat)
    requires g <= |scale| && 32 * g <= |a| && 32 * g <= |w|
    ensures Done(a, w, scale, g) == Scaled(a, w, scale, 32, 32 * g)
  {
  }

  lemma DoneStep(a: Vec, w: Vec, scale: Vec, g: nat)
    requires g < |scale| && 32 * g + 32 <= |a| && 32 * g + 32 <= |w|
    ensures Done(a, w, scale, g + 1) == Done(a, w, scale, g) + Contribution(a, w, g, scale[g])
  {
    DeferScale(a, w, scale, 32, g, 32 * g + 32);
  }

  lemma WeightsLength(wrow: Bytes, n: nat)
    requires n <= 2 * |wrow|
    ensures |Weights(wrow, n)| == n
  {
  }

  lemma ZeroTotal(acc: seq<seq<Vec>>)
    requires |acc| == 4 && forall t :: 0 <= t < 4 ==> acc[t] == seq(4, _ => Zero(16))
    ensures forall t :: 0 <= t < 4 ==> Total(acc[t]) == 0.0
  {
    SumZero(16, 16);
  }

  lemma TotalIs(acc: seq<Vec>)
    requires |acc| == 4 && forall p :: 0 <= p < 4 ==> |acc[p]| == 16
    ensures Hsum512(Add(Add(acc[0], acc[1]), Add(acc[2], acc[3]))) == Total(acc)
  {
    Hsum512IsSum(Add(Add(acc[0], acc[1]), Add(acc[2], acc[3])));
    SumAdd(Add(acc[0], acc[1]), Add(acc[2], acc[3]), 16);
    SumAdd(acc[0], acc[1], 16);
    SumAdd(acc[2], acc[3], 16);
  }

  /** The single-row remainder: one accumulator. */
  method RowAvx512(a: Vec, wrow: Bytes, scale: Vec, groups: nat) returns (sum: real)
    requires |wrow| == 16 * groups && |scale| == groups && |a| == 32 * groups
    ensures sum == Scaled(a, Weights(wrow, 32 * groups), scale, 32, 32 * groups)
  {
    hide Sum, DecodeAvx512, Weights, Scaled, Done, Contribution;
    ghost var w := Weights(wrow, 32 * groups);
    WeightsLength(wrow, 32 * groups);
    var total := Zero(16);
    ZeroSum(16);
    DoneNone(a, w, scale);
    for g := 0 to groups
      invariant |total| == 16 && Sum(total) == Done(a, w, scale, g)
    {
      var (w0, w1) := DecodeAvx512(wrow[16 * g..16 * g + 16]);
      GroupWeights512(wrow, 32 * groups, g);
      DoneStep(a, w, scale, g);
      total := GroupAvx512(total, w0, w1, a, g, scale[g], w);
    }
    Hsum512IsSum(total);
    DoneAll(a, w, scale, groups);
    sum := Hsum512(total);
  }

  // ----- AVX2: activations permuted once into decode order.

  /** p is the row `a` with every group of 32 in the order K_PERM. */
  ghost predicate Permuted(p: Vec, a: Vec) {
    |p| == |a| && forall g: nat, o, h, i :: 32 * g + 32 <= |a| && 0 <= o < 4 && 0 <= h < 2 && 0 <= i < 4 ==>
      PermutedAt(p, a, g, o, h, i)
  }

  ghost predicate PermutedAt(p: Vec, a: Vec, g: nat, o: nat, h: nat, i: nat) {
    && o < 4 && h < 2 && i < 4 && 32 * g + 32 <= |p| && 32 * g + 32 <= |a|
    && p[32 * g + 8 * o + 4 * h + i] == a[32 * g + 8 * o + 2 * i + h]
  }

  /** The position in the original row of entry c of the permuted one. */
  function PermOf(c: nat): nat {
    c / 32 * 32 + K_PERM[c % 32]
  }

  lemma PermOfIs(g: nat, j: nat)
    requires j < 32
    ensures PermOf(32 * g + j) == 32 * g + K_PERM[j] < 32 * g + 32
  {
    assert (32 * g + j) / 32 == g && (32 * g + j) % 32 == j;
    PermAt(j / 8, j % 8 / 4, j % 4);
  }

  ghost predicate PermutedTo(p: Vec, a: Vec, c: nat) {
    c < |p| && PermOf(c) < |a| && p[c] == a[PermOf(c)]
  }

  /** The loop that permutes one activation row. */
  method Permute(a: Vec, groups: nat) returns (p: Vec)
    requires |a| == 32 * groups
    ensures Permuted(p, a)
  {
    hide PermOf;
    p := [];
    for g := 0 to groups
      invariant |p| == 32 * g && forall c: nat :: c < |p| ==> PermutedTo(p, a, c)
    {
      var base := g * 32;
      for j := 0 to 32
        invariant |p| == base + j && forall c: nat :: c < |p| ==> PermutedTo(p, a, c)
      {
        PermOfIs(g, j);
        ghost var before := p;
        p := p + [a[base + K_PERM[j]]];
        forall c: nat | c < |p| ensures PermutedTo(p, a, c) { assert c < |before| ==> PermutedTo(before, a, c); }
      }
    }
    forall g: nat, o, h, i | 32 * g + 32 <= |a| && 0 <= o < 4 && 0 <= h < 2 && 0 <= i < 4 ensures PermutedAt(p, a, g, o, h, i) {
      PermAt(o, h, i);
      PermOfIs(g, 8 * o + 4 * h + i);
      assert PermutedTo(p, a, 32 * g + 8 * o + 4 * h + i);
    }
  }

  function Product(a: Vec, w: Vec, k: nat): real
    requires k < |a| && k < |w|
  {
    a[k] * w[k]
  }

  lemma EightTerms(a: Vec, w: Vec, lo: nat)
    requires lo + 8 <= |a| && lo + 8 <= |w|
    ensures Dot(a, w, lo, lo + 8) == Product(a, w, lo) + Product(a, w, lo + 1) + Product(a, w, lo + 2) + Product(a, w, lo + 3)
      + Product(a, w, lo + 4) + Product(a, w, lo + 5) + Product(a, w, lo + 6) + Product(a, w, lo + 7)
  {
    assert Dot(a, w, lo, lo + 1) == Product(a, w, lo);
    assert Dot(a, w, lo, lo + 3) == Dot(a, w, lo, lo + 1) + Product(a, w, lo + 1) + Product(a, w, lo + 2);
    assert Dot(a, w, lo, lo + 5) == Dot(a, w, lo, lo + 3) + Product(a, w, lo + 3) + Product(a, w, lo + 4);
    assert Dot(a, w, lo, lo + 7) == Dot(a, w, lo, lo + 5) + Product(a, w, lo + 5) + Product(a, w, lo + 6);
  }

  /** An octet's dot product does not depend on the order of its terms. */
  lemma OctetDot(pa: Vec, pw: Vec, a: Vec, w: Vec, g: nat, o: nat)
    requires Permuted(pa, a) && Permuted(pw, w) && |a| == |w| && 32 * g + 32 <= |a| && o < 4
    ensures Dot(pa, pw, 32 * g + 8 * o, 32 * g + 8 * o + 8) == Dot(a, w, 32 * g + 8 * o, 32 * g + 8 * o + 8)
  {
    hide Dot, Product;
    var lo := 32 * g + 8 * o;
    EightTerms(pa, pw, lo);
    EightTerms(a, w, lo);
    forall h, i | 0 <= h < 2 && 0 <= i < 4 ensures Product(pa, pw, lo + 4 * h + i) == Product(a, w, lo + 2 * i + h) {
      assert PermutedAt(pa, a, g, o, h, i) && PermutedAt(pw, w, g, o, h, i);
      SameProduct(pa, pw, a, w, lo + 4 * h + i, lo + 2 * i + h);
    }
    assert Product(pa, pw, lo + 4 * 0 + 1) == Product(a, w, lo + 2 * 1 + 0);
    assert Product(pa, pw, lo + 4 * 0 + 2) == Product(a, w, lo + 2 * 2 + 0);
    assert Product(pa, pw, lo + 4 * 0 + 3) == Product(a, w, lo + 2 * 3 + 0);
    assert Product(pa, pw, lo + 4 * 1 + 0) == Product(a, w, lo + 2 * 0 + 1);
    assert Product(pa, pw, lo + 4 * 1 + 1) == Product(a, w, lo + 2 * 1 + 1);
    assert Product(pa, pw, lo + 4 * 1 + 2) == Product(a, w, lo + 2 * 2 + 1);
    assert Product(pa, pw, lo + 4 * 1 + 3) == Product(a, w, lo + 2 * 3 + 1);
    assert Product(pa, pw, lo + 4 * 0 + 0) == Product(a, w, lo + 2 * 0 + 0);
  }

  lemma SameProduct(pa: Vec, pw: Vec, a: Vec, w: Vec, c: nat, k: nat)
    requires c < |pa| && c < |pw| && k < |a| && k < |w| && pa[c] == a[k] && pw[c] == w[k]
    ensures Product(pa, pw, c) == Product(a, w, k)
  {
  }

  /** Weight i of group g is the i-th nibble of raw. */
  ghost predicate WeightIs(w: Vec, raw: Bytes, g: nat, i: nat) {
    i / 2 < |raw| && 32 * g + i < |w| && w[32 * g + i] == E2M1(Nibble(raw, i))
  }

  /** One group of four registers: gacc is the products' lane sums, then one broadcast-FMA with the scale. */
  method GroupAvx2(acc: Vec, raw: Bytes, pa: Vec, g: nat, s: real, ghost a: Vec, ghost w: Vec, ghost pw: Vec) returns (r: Vec)
    requires |acc| == 8 && |raw| == 16 && Permuted(pa, a) && Permuted(pw, w) && |a| == |w| && 32 * g + 32 <= |a|
    requires forall i: nat :: i < 32 ==> WeightIs(w, raw, g, i)
    ensures |r| == 8 && Sum(r) == Sum(acc) + Contribution(a, w, g, s)
  {
    hide DecodeAvx2, E2M1, Nibble, Dot, Permuted;
    var base := g * 32;
    var regs := DecodeAvx2(raw);
    Registers(raw, g, w, pw);
    PermutedLength(pa, a);
    PermutedLength(pw, w);
    var gacc := Mul(regs[0], pa[base..base + 8]);
    MulIsFma(regs[0], pa[base..base + 8]);
    SumFma(regs[0], pa, pw, base, Zero(8), 8);
    SumZero(8, 8);
    for o := 1 to 4
      invariant |gacc| == 8 && Sum(gacc) == Dot(pa, pw, base, base + 8 * o)
    {
      SumFma(regs[o], pa, pw, base + 8 * o, gacc, 8);
      DotSplit(pa, pw, base, base + 8 * o, base + 8 * o + 8);
      gacc := Fma(regs[o], pa[base + 8 * o..base + 8 * o + 8], gacc);
    }
    GroupDot(pa, pw, a, w, g);
    SumFmaScalar(gacc, s, acc, 8);
    r := FmaScalar(gacc, s, acc);
  }

  lemma PermutedLength(p: Vec, a: Vec)
    requires Permuted(p, a)
    ensures |p| == |a|
  {
  }

  lemma Registers(raw: Bytes, g: nat, w: Vec, pw: Vec)
    requires |raw| == 16 && Permuted(pw, w) && 32 * g + 32 <= |w|
    requires forall i: nat :: i < 32 ==> WeightIs(w, raw, g, i)
    ensures |DecodeAvx2(raw)| == 4
    ensures forall o :: 0 <= o < 4 ==> |DecodeAvx2(raw)[o]| == 8
    ensures forall o, c :: 0 <= o < 4 && 0 <= c < 8 ==> DecodeAvx2(raw)[o][c] == pw[32 * g + 8 * o + c]
  {
    hide DecodeAvx2, E2M1, Nibble;
    Avx2IsPermuted(raw, 0, 0, 0);
    forall o, c | 0 <= o < 4 && 0 <= c < 8
      ensures |DecodeAvx2(raw)[o]| == 8 && DecodeAvx2(raw)[o][c] == pw[32 * g + 8 * o + c]
    {
      RegisterLane(raw, g, w, pw, o, c / 4, c % 4);
    }
    assert forall o :: 0 <= o < 4 ==> |DecodeAvx2(raw)[o]| == 8 by {
      forall o | 0 <= o < 4 ensures |DecodeAvx2(raw)[o]| == 8 { Avx2IsPermuted(raw, o, 0, 0); }
    }
  }

  lemma RegisterLane(raw: Bytes, g: nat, w: Vec, pw: Vec, o: nat, h: nat, i: nat)
    requires |raw| == 16 && Permuted(pw, w) && 32 * g + 32 <= |w| && o < 4 && h < 2 && i < 4
    requires forall i: nat :: i < 32 ==> WeightIs(w, raw, g, i)
    ensures |DecodeAvx2(raw)| == 4 && |DecodeAvx2(raw)[o]| == 8
    ensures DecodeAvx2(raw)[o][4 * h + i] == pw[32 * g + 8 * o + 4 * h + i]
  {
    hide DecodeAvx2, E2M1, Nibble;
    Avx2IsPermuted(raw, o, h, i);
    PermAt(o, h, i);
    assert PermutedAt(pw, w, g, o, h, i);
    assert WeightIs(w, raw, g, 8 * o + 2 * i + h);
  }

  lemma GroupDot(pa: Vec, pw: Vec, a: Vec, w: Vec, g: nat)
    requires Permuted(pa, a) && Permuted(pw, w) && |a| == |w| && 32 * g + 32 <= |a|
    ensures Dot(pa, pw, 32 * g, 32 * g + 32) == Dot(a, w, 32 * g, 32 * g + 32)
  {
    hide Dot;
    var lo := 32 * g;
    OctetDot(pa, pw, a, w, g, 0);
    OctetDot(pa, pw, a, w, g, 1);
    OctetDot(pa, pw, a, w, g, 2);
    OctetDot(pa, pw, a, w, g, 3);
    DotSplit(pa, pw, lo, lo + 8, lo + 32);
    DotSplit(pa, pw, lo + 8, lo + 16, lo + 32);
    DotSplit(pa, pw, lo + 16, lo + 24, lo + 32);
    DotSplit(a, w, lo, lo + 8, lo + 32);
    DotSplit(a, w, lo + 8, lo + 16, lo + 32);
    DotSplit(a, w, lo + 16, lo + 24, lo + 32);
  }

  lemma GroupWeights(wrow: Bytes, n: nat, g: nat, raw: Bytes, w: Vec)
    requires n <= 2 * |wrow| && 32 * g + 32 <= n && raw == wrow[16 * g..16 * g + 16] && w == Weights(wrow, n)
    ensures forall i: nat :: i < 32 ==> WeightIs(w, raw, g, i)
  {
    hide E2M1, Nibble;
    forall i: nat | i < 32 ensures WeightIs(w, raw, g, i) {
      NibbleInside(wrow, 16 * g, 16, i);
    }
  }

  lemma PermutedExists(w: Vec, groups: nat) returns (pw: Vec)
    requires |w| == 32 * groups
    ensures Permuted(pw, w)
  {
    hide PermOf;
    pw := seq(|w|, c requires 0 <= c < |w| => if PermOf(c) < |w| then w[PermOf(c)] else 0.0);
    forall g: nat, o, h, i | 32 * g + 32 <= |w| && 0 <= o < 4 && 0 <= h < 2 && 0 <= i < 4 ensures PermutedAt(pw, w, g, o, h, i) {
      PermAt(o, h, i);
      PermOfIs(g, 8 * o + 4 * h + i);
    }
  }

  /** The 4-token block of the AVX2 path; pa are the permuted rows of a. */
  method Block4Avx2(pa: seq<Vec>, wrow: Bytes, scale: Vec, groups: nat, ghost a: seq<Vec>) returns (sums: seq<real>)
    requires |pa| == |a| == 4 && |wrow| == 16 * groups && |scale| == groups
    requires forall t :: 0 <= t < 4 ==> |a[t]| == 32 * groups && Permuted(pa[t], a[t])
    ensures |sums| == 4
    ensures forall t :: 0 <= t < 4 ==> sums[t] == Scaled(a[t], Weights(wrow, 32 * groups), scale, 32, 32 * groups)
  {
    hide Sum, Weights, Scaled, Done, Permuted, Contribution, WeightIs;
    ghost var w := Weights(wrow, 32 * groups);
    WeightsLength(wrow, 32 * groups);
    ghost var pw := PermutedExists(w, groups);
    var tot := seq(4, _ => Zero(8));
    forall t | 0 <= t < 4 ensures Sum(tot[t]) == Done(a[t], w, scale, 0) { ZeroDone(tot[t], a[t], w, scale); }
    for g := 0 to groups
      invariant |tot| == 4 && forall t :: 0 <= t < 4 ==> |tot[t]| == 8 && Sum(tot[t]) == Done(a[t], w, scale, g)
    {
      var raw := wrow[16 * g..16 * g + 16];
      GroupWeights(wrow, 32 * groups, g, raw, w);
      for t := 0 to 4
        invariant |tot| == 4
        invariant forall u :: 0 <= u < 4 ==> |tot[u]| == 8 && Sum(tot[u]) == Done(a[u], w, scale, if u < t then g + 1 else g)
      {
        var d := GroupAvx2(tot[t], raw, pa[t], g, scale[g], a[t], w, pw);
        DoneStep(a[t], w, scale, g);
        ghost var before := tot;
        tot := tot[t := d];
        assert forall u :: 0 <= u < 4 && u != t ==> tot[u] == before[u];
      }
    }
    sums := [];
    for t := 0 to 4
      invariant |sums| == t && forall u :: 0 <= u < t ==> sums[u] == Scaled(a[u], w, scale, 32, 32 * groups)
    {
      Hsum256IsSum(tot[t]);
      DoneAll(a[t], w, scale, groups);
      sums := sums + [Hsum256(tot[t])];
    }
  }

  lemma ZeroDone(v: Vec, a: Vec, w: Vec, scale: Vec)
    requires v == Zero(8)
    ensures Sum(v) == Done(a, w, scale, 0)
  {
    SumZero(8, 8);
    DoneNone(a, w, scale);
  }

  /** The single-row remainder of the AVX2 path: even groups into one accumulator, odd groups into another. */
  method RowAvx2(pa: Vec, wrow: Bytes, scale: Vec, groups: nat, ghost a: Vec) returns (sum: real)
    requires |wrow| == 16 * groups && |scale| == groups && |a| == 32 * groups && Permuted(pa, a)
    ensures sum == Scaled(a, Weights(wrow, 32 * groups), scale, 32, 32 * groups)
  {
    hide Sum, Weights, Scaled, Done, Permuted, Contribution, WeightIs;
    ghost var w := Weights(wrow, 32 * groups);
    WeightsLength(wrow, 32 * groups);
    ghost var pw := PermutedExists(w, groups);
    var total0, total1 := Zero(8), Zero(8);
    ZeroSum(8);
    DoneNone(a, w, scale);
    for g := 0 to groups
      invariant |total0| == |total1| == 8 && Sum(total0) + Sum(total1) == Done(a, w, scale, g)
    {
      var raw := wrow[16 * g..16 * g + 16];
      GroupWeights(wrow, 32 * groups, g, raw, w);
      DoneStep(a, w, scale, g);
      if g % 2 == 1 {
        total1 := GroupAvx2(total1, raw, pa, g, scale[g], a, w, pw);
      } else {
        total0 := GroupAvx2(total0, raw, pa, g, scale[g], a, w, pw);
      }
    }
    SumOfAdd(total0, total1);
    Hsum256IsSum(Add(total0, total1));
    DoneAll(a, w, scale, groups);
    sum := Hsum256(Add(total0, total1));
  }
}
