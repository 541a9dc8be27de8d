/** Float vectors over the reals: what lane-wise multiply-adds and horizontal sums compute. */
module VectorSums {
  import opened Tables

  type Vec = seq<real>

  function Pow2(n: int): real
    decreases if n < 0 then -n else n
  {
    if n == 0 then 1.0 else if n > 0 then 2.0 * Pow2(n - 1) else Pow2(n + 1) / 2.0
  }

  function Zero(n: nat): Vec {
    seq(n, _ => 0.0)
  }

  function Mul(a: Vec, b: Vec): Vec
    requires |a| == |b|
  {
    seq(|a|, i requires 0 <= i < |a| => a[i] * b[i])
  }

  /** fmadd: a * b + c in every lane. */
  function Fma(a: Vec, b: Vec, c: Vec): Vec
    requires |a| == |b| == |c|
  {
    seq(|a|, i requires 0 <= i < |a| => a[i] * b[i] + c[i])
  }

  /** fmadd with a broadcast factor. */
  function FmaScalar(a: Vec, s: real, c: Vec): Vec
    requires |a| == |c|
  {
    seq(|a|, i requires 0 <= i < |a| => a[i] * s + c[i])
  }

  function Add(a: Vec, b: Vec): Vec
    requires |a| == |b|
  {
    seq(|a|, i requires 0 <= i < |a| => a[i] + b[i])
  }

  function SumTo(v: Vec, n: nat): real
    requires n <= |v|
  {
    if n == 0 then 0.0 else SumTo(v, n - 1) + v[n - 1]
  }

  function Sum(v: Vec): real {
    SumTo(v, |v|)
  }

  /** sum of a[k] * w[k] over lo <= k < hi. */
  function Dot(a: Vec, w: Vec, lo: nat, hi: nat): real
    requires lo <= hi <= |a| && hi <= |w|
    decreases hi - lo
  {
    if lo == hi then 0.0 else Dot(a, w, lo, hi - 1) + a[hi - 1] * w[hi - 1]
  }

  /** The elementwise definition: sum of a[k] * w[k] * scale[k / gk] over k < n. */
  function Scaled(a: Vec, w: Vec, scale: Vec, gk: nat, n: nat): real
    requires gk > 0 && n <= |a| && n <= |w| && n <= Area(|scale|, gk)
  {
    if n == 0 then 0.0 else
    Unflat(n - 1, gk, |scale|);
    Scaled(a, w, scale, gk, n - 1) + a[n - 1] * w[n - 1] * scale[(n - 1) / gk]
  }

  lemma {:induction false} SumFmaScalar(a: Vec, s: real, c: Vec, n: nat)
    requires |a| == |c| && n <= |a|
    ensures SumTo(FmaScalar(a, s, c), n) == SumTo(a, n) * s + SumTo(c, n)
  {
    if n > 0 { SumFmaScalar(a, s, c, n - 1); }
  }

  lemma {:induction false} SumAdd(a: Vec, b: Vec, n: nat)
    requires |a| == |b| && n <= |a|
    ensures SumTo(Add(a, b), n) == SumTo(a, n) + SumTo(b, n)
  {
    if n > 0 { SumAdd(a, b, n - 1); }
  }

  lemma {:induction false} SumZero(n: nat, m: nat)
    requires m <= n
    ensures SumTo(Zero(n), m) == 0.0
  {
    if m > 0 { SumZero(n, m - 1); }
  }

  lemma ZeroSum(n: nat)
    ensures Sum(Zero(n)) == 0.0
  {
    SumZero(n, n);
  }

  lemma SumOfAdd(a: Vec, b: Vec)
    requires |a| == |b|
    ensures Sum(Add(a, b)) == Sum(a) + Sum(b)
  {
    SumAdd(a, b, |a|);
  }

  /** Multiplying a register of weights with a stretch of activations adds that stretch's dot product. */
  lemma {:induction false} SumFma(x: Vec, a: Vec, w: Vec, lo: nat, c: Vec, n: nat)
    requires |x| == |c| && n <= |x| && lo + |x| <= |a| && lo + |x| <= |w|
    requires forall i :: 0 <= i < |x| ==> x[i] == w[lo + i]
    ensures SumTo(Fma(x, a[lo..lo + |x|], c), n) == Dot(a, w, lo, lo + n) + SumTo(c, n)
  {
    if n > 0 { SumFma(x, a, w, lo, c, n - 1); }
  }

  lemma MulIsFma(x: Vec, y: Vec)
    requires |x| == |y|
    ensures Mul(x, y) == Fma(x, y, Zero(|x|))
  {
  }

  lemma {:induction false} DotSplit(a: Vec, w: Vec, lo: nat, mid: nat, hi: nat)
    requires lo <= mid <= hi <= |a| && hi <= |w|
    ensures Dot(a, w, lo, hi) == Dot(a, w, lo, mid) + Dot(a, w, mid, hi)
    decreases hi
  {
    if mid < hi { DotSplit(a, w, lo, mid, hi - 1); }
  }

  lemma Distribute(d: real, x: real, s: real)
    ensures (d + x) * s == d * s + x * s
  {
  }

  lemma ScaledNext(a: Vec, w: Vec, scale: Vec, gk: nat, n: nat, g: nat)
    requires gk > 0 && n < |a| && n < |w| && n + 1 <= Area(|scale|, gk) && g < |scale| && n / gk == g
    ensures Scaled(a, w, scale, gk, n + 1) == Scaled(a, w, scale, gk, n) + a[n] * w[n] * scale[g]
  {
    hide Area;
  }

  lemma GroupOf(k: nat, g: nat, gk: nat)
    requires Area(g, gk) <= k < Area(g, gk) + gk
    ensures k / gk == g
  {
    FlatInverse(g, k - Area(g, gk), gk);
  }

  /** A group's scale can be applied once, to the sum over the group. */
  lemma {:induction false} DeferScale(a: Vec, w: Vec, scale: Vec, gk: nat, g: nat, n: nat)
    requires gk > 0 && g < |scale| && Area(g, gk) <= n <= Area(g, gk) + gk && n <= |a| && n <= |w| && n <= Area(|scale|, gk)
    ensures Scaled(a, w, scale, gk, n) == Scaled(a, w, scale, gk, Area(g, gk)) + Dot(a, w, Area(g, gk), n) * scale[g]
    decreases n
  {
    hide Area, Scaled;
    var start := Area(g, gk);
    if start < n {
      GroupOf(n - 1, g, gk);
      DeferScale(a, w, scale, gk, g, n - 1);
      ScaledNext(a, w, scale, gk, n - 1, g);
      Distribute(Dot(a, w, start, n - 1), a[n - 1] * w[n - 1], scale[g]);
    }
  }

  /** t[0] += x. */
  lemma {:induction false} SumBump(v: Vec, x: real, n: nat)
    requires 0 < n <= |v|
    ensures SumTo(v[0 := v[0] + x], n) == SumTo(v, n) + x
  {
    if n > 1 { SumBump(v, x, n - 1); }
  }

  /** total += group * scale, with the scalar tail of the group going to lane 0. */
  method Fold(total: Vec, group: Vec, tail: real, scale: real) returns (r: Vec)
    requires |total| == |group| == 8
    ensures |r| == 8 && Sum(r) == Sum(total) + (Sum(group) + tail) * scale
  {
    r := FmaScalar(group, scale, total);
    SumFmaScalar(group, scale, total, 8);
    Distribute(Sum(group), tail, scale);
    if tail != 0.0 {
      SumBump(r, tail * scale, 8);
      r := r[0 := r[0] + tail * scale];
    }
  }

  /** The elementwise definition is the sum of its terms. */
  lemma {:induction false} ScaledIsSum(a: Vec, w: Vec, scale: Vec, gk: nat, terms: Vec, n: nat)
    requires gk > 0 && n <= |a| && n <= |w| && n <= |terms| && n <= Area(|scale|, gk)
    requires forall k :: 0 <= k < n ==> k / gk < |scale| && terms[k] == a[k] * w[k] * scale[k / gk]
    ensures Scaled(a, w, scale, gk, n) == SumTo(terms, n)
  {
    if n > 0 { ScaledIsSum(a, w, scale, gk, terms, n - 1); }
  }

  /** A one at position `at`, zeros elsewhere. */
  ghost predicate OneAt(a: Vec, at: nat) {
    forall x :: 0 <= x < |a| ==> a[x] == if x == at then 1.0 else 0.0
  }

  lemma {:induction false} OneTerm(v: Vec, k: nat, n: nat)
    requires n <= |v| && k < |v| && forall l :: 0 <= l < |v| && l != k ==> v[l] == 0.0
    ensures SumTo(v, n) == if k < n then v[k] else 0.0
  {
    if n > 0 { OneTerm(v, k, n - 1); }
  }
}
