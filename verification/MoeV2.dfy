/** MOE_V2: what a forward pass means, and the partition of weight rows over jobs and NUMA shards. */
module MoeV2 {
  import opened Tables

  type XRow(0, !new)    // the bf16 activations of a token
  type WRow(0, !new)    // one packed weight row
  type Num(0, !new)     // fp32
  type Half(0, !new)    // bf16
  type Factor(!new)     // a routing weight

  /** The kernels by row: dotUp(x, w, e, row) and dotDown(a, w, e, row) are the products with weight row `row`
      of expert e, whose scales are addressed by e and row; silu(gate, up) is SiLU(gate) * up, round is the
      conversion to bf16, mulAdd(acc, w, d) is acc + w * d. */
  datatype Ops = Ops(dotUp: (XRow, WRow, nat, nat) -> Num, silu: (Num, Num) -> Num, round: Num -> Half,
                     dotDown: (seq<Half>, WRow, nat, nat) -> Num,
                     mulAdd: (Num, Factor, Num) -> Num, zero: Num, isZero: Factor -> bool)

  /** w13 has the gate rows of an expert, then its up rows; I and H are the intermediate and hidden sizes. */
  datatype Net = Net(ops: Ops, E: nat, I: nat, H: nat, w13: seq<WRow>, w2: seq<WRow>)

  predicate Sized(net: Net) {
    |net.w13| == Area(net.E, 2 * net.I) && |net.w2| == Area(net.E, net.H)
  }

  /** Row c of the gate-and-up product: gate for c < I, up from I on. */
  function GateUpCell(net: Net, x: XRow, e: nat, c: nat): Num
    requires Sized(net) && e < net.E && c < 2 * net.I
  {
    FlatBound(e, c, 2 * net.I, net.E);
    net.ops.dotUp(x, net.w13[Flat(e, c, 2 * net.I)], e, c)
  }

  function HidCell(net: Net, x: XRow, e: nat, i: nat): Half
    requires Sized(net) && e < net.E && i < net.I
  {
    net.ops.round(net.ops.silu(GateUpCell(net, x, e, i), GateUpCell(net, x, e, net.I + i)))
  }

  function Hid(net: Net, x: XRow, e: nat): seq<Half>
    requires Sized(net) && e < net.E
  {
    seq(net.I, i requires 0 <= i < net.I => HidCell(net, x, e, i))
  }

  function OutCell(net: Net, x: XRow, e: nat, h: nat): Num
    requires Sized(net) && e < net.E && h < net.H
  {
    FlatBound(e, h, net.H, net.E);
    net.ops.dotDown(Hid(net, x, e), net.w2[Flat(e, h, net.H)], e, h)
  }

  /** An assignment counts when its expert exists and its weight is not zero. */
  predicate Valid(net: Net, ids: seq<nat>, ws: seq<Factor>, ai: nat)
    requires |ids| == |ws|
  {
    ai < |ids| && ids[ai] < net.E && !net.ops.isZero(ws[ai])
  }

  /** Output cell h of a token after the first n of its ranks; its assignments start at `first`. */
  function TokenCell(net: Net, x: XRow, ids: seq<nat>, ws: seq<Factor>, first: nat, n: nat, h: nat): Num
    requires Sized(net) && |ids| == |ws| && first + n <= |ids| && h < net.H
  {
    if n == 0 then net.ops.zero else
    var before := TokenCell(net, x, ids, ws, first, n - 1, h);
    var ai := first + n - 1;
    if Valid(net, ids, ws, ai) then net.ops.mulAdd(before, ws[ai], OutCell(net, x, ids[ai], h)) else before
  }

  // ----- Which rows a job covers.

  /** Start of part c when n rows are split into `parts`. */
  function Bound(n: nat, parts: nat, c: nat): nat
    requires parts > 0
  {
    c * n / parts
  }

  lemma BoundEnds(n: nat, parts: nat)
    requires parts > 0
    ensures Bound(n, parts, 0) == 0 && Bound(n, parts, parts) == n
  {
    FlatInverse(n, 0, parts);
    assert parts * n == Flat(n, 0, parts);
  }

  lemma DivMonotone(a: nat, b: nat, d: nat)
    requires a <= b && d > 0
    ensures a / d <= b / d
  {
    var qa, qb := a / d, b / d;
    MulLe(qb + 1, qa, d);
  }

  lemma BoundMonotone(n: nat, parts: nat, c: nat)
    requires parts > 0
    ensures Bound(n, parts, c) <= Bound(n, parts, c + 1)
    ensures c < parts ==> Bound(n, parts, c + 1) <= n
  {
    DivMonotone(c * n, (c + 1) * n, parts);
    MulLe(c + 1, parts, n);
    if c < parts {
      DivMonotone((c + 1) * n, parts * n, parts);
      BoundEnds(n, parts);
    }
  }

  lemma {:induction false} BoundFind(n: nat, parts: nat, x: nat, hi: nat) returns (c: nat)
    requires parts > 0 && hi <= parts && x < Bound(n, parts, hi)
    ensures c < hi && Bound(n, parts, c) <= x < Bound(n, parts, c + 1)
  {
    hide Bound;
    BoundEnds(n, parts);
    assert hi > 0;
    if Bound(n, parts, hi - 1) <= x { c := hi - 1; }
    else { c := BoundFind(n, parts, x, hi - 1); }
  }

  /** Rows of part s of a span that is cut into `sub` parts of equal rounded-up size; a part may be empty. */
  function SubSpan(n0: nat, n1: nat, sub: nat, s: nat): (nat, nat)
    requires sub > 0 && n0 <= n1
  {
    if sub == 1 then (n0, n1) else
    var sep := (n1 - n0 + sub - 1) / sub;
    (n0 + s * sep, if n1 < n0 + s * sep + sep then n1 else n0 + s * sep + sep)
  }

  lemma SubSpanFind(n0: nat, n1: nat, sub: nat, x: nat) returns (s: nat)
    requires sub > 0 && n0 <= x < n1
    ensures s < sub && SubSpan(n0, n1, sub, s).0 <= x < SubSpan(n0, n1, sub, s).1
  {
    if sub == 1 {
      s := 0;
    } else {
      var sep := (n1 - n0 + sub - 1) / sub;
      assert n1 - n0 + sub - 1 == sep * sub + (n1 - n0 + sub - 1) % sub;
      assert n1 - n0 <= Area(sub, sep) by { assert Area(sub, sep) == sep * sub; }
      Unflat(x - n0, sep, sub);
      s := (x - n0) / sep;
    }
  }

  /** The rows of job (node, s) of a phase over n rows: with NS shards, part s of the node's span; without,
      chunk s of `parts` chunks. */
  function Span(n: nat, NS: nat, parts: nat, node: nat, s: nat): (nat, nat)
    requires parts > 0
  {
    if NS >= 2 then
      BoundMonotone(n, NS, node);
      SubSpan(Bound(n, NS, node), Bound(n, NS, node + 1), parts, s)
    else (Bound(n, parts, s), Bound(n, parts, s + 1))
  }

  function Nodes(NS: nat): nat {
    if NS >= 2 then NS else 1
  }

  /** Every row is covered by some job. */
  lemma SpanFind(n: nat, NS: nat, parts: nat, x: nat) returns (node: nat, s: nat)
    requires parts > 0 && x < n
    ensures node < Nodes(NS) && s < parts && Span(n, NS, parts, node, s).0 <= x < Span(n, NS, parts, node, s).1
  {
    hide Bound, SubSpan;
    if NS >= 2 {
      BoundEnds(n, NS);
      node := BoundFind(n, NS, x, NS);
      s := SubSpanFind(Bound(n, NS, node), Bound(n, NS, node + 1), parts, x);
    } else {
      BoundEnds(n, parts);
      node := 0;
      s := BoundFind(n, parts, x, parts);
    }
  }

  /** A job stays inside the tensor, and with shards inside its node's rows. */
  lemma SpanInside(n: nat, NS: nat, parts: nat, node: nat, s: nat)
    requires parts > 0 && node < Nodes(NS) && s < parts
    ensures Span(n, NS, parts, node, s).1 <= n
    ensures NS >= 2 ==> Bound(n, NS, node) <= Span(n, NS, parts, node, s).0 && Span(n, NS, parts, node, s).1 <= Bound(n, NS, node + 1)
  {
    hide Bound;
    if NS >= 2 { BoundMonotone(n, NS, node); } else { BoundMonotone(n, parts, s); }
  }

  // ----- Shards.

  /** Rows [r0, r1) of every expert of a shard are those of the full tensor, at the same place. */
  ghost predicate ShardAgrees(shard: seq<WRow>, src: seq<WRow>, E: nat, rows: nat, r0: nat, r1: nat) {
    && |shard| == |src| == Area(E, rows)
    && forall e, r :: 0 <= e < E && r0 <= r < r1 && r < rows ==> SameRow(shard, src, e, r, rows)
  }

  ghost predicate SameRow(shard: seq<WRow>, src: seq<WRow>, e: nat, r: nat, rows: nat) {
    Flat(e, r, rows) < |shard| && Flat(e, r, rows) < |src| && shard[Flat(e, r, rows)] == src[Flat(e, r, rows)]
  }

  /** One memcpy of rows [r0, r1) of expert e; a row that was already copied stays. */
  method CopyRows(shard0: seq<WRow>, src: seq<WRow>, e: nat, E: nat, rows: nat, r0: nat, r1: nat) returns (shard: seq<WRow>)
    requires |shard0| == |src| == Area(E, rows) && e < E && r0 <= r1 <= rows
    ensures |shard| == |src|
    ensures forall r :: r0 <= r < r1 ==> SameRow(shard, src, e, r, rows)
    ensures forall f: nat, r: nat :: SameRow(shard0, src, f, r, rows) ==> SameRow(shard, src, f, r, rows)
  {
    hide Flat, Area;
    shard := shard0;
    for r := r0 to r1
      invariant |shard| == |src|
      invariant forall q :: r0 <= q < r ==> SameRow(shard, src, e, q, rows)
      invariant forall f: nat, q: nat :: SameRow(shard0, src, f, q, rows) ==> SameRow(shard, src, f, q, rows)
    {
      FlatBound(e, r, rows, E);
      ghost var before := shard;
      shard := shard[Flat(e, r, rows) := src[Flat(e, r, rows)]];
      assert forall f: nat, q: nat :: SameRow(before, src, f, q, rows) ==> SameRow(shard, src, f, q, rows);
    }
  }

  /** shard_fill_w13 for one node: the gate and the up rows it owns, of every expert. */
  method ShardFillW13(src: seq<WRow>, E: nat, I: nat, NS: nat, n: nat, garbage: WRow) returns (shard: seq<WRow>)
    requires NS >= 2 && n < NS && |src| == Area(E, 2 * I)
    ensures ShardAgrees(shard, src, E, 2 * I, Bound(I, NS, n), Bound(I, NS, n + 1))
    ensures ShardAgrees(shard, src, E, 2 * I, I + Bound(I, NS, n), I + Bound(I, NS, n + 1))
  {
    hide Flat, Area, Bound, SameRow;
    BoundMonotone(I, NS, n);
    var rs, re := Bound(I, NS, n), Bound(I, NS, n + 1);
    shard := seq(|src|, _ => garbage);
    for e := 0 to E
      invariant |shard| == |src|
      invariant forall f, r :: 0 <= f < e && rs <= r < re ==> SameRow(shard, src, f, r, 2 * I)
      invariant forall f, r :: 0 <= f < e && I + rs <= r < I + re ==> SameRow(shard, src, f, r, 2 * I)
    {
      shard := CopyRows(shard, src, e, E, 2 * I, rs, re);
      shard := CopyRows(shard, src, e, E, 2 * I, I + rs, I + re);
    }
  }

  /** shard_fill_w2 for one node. */
  method ShardFillW2(src: seq<WRow>, E: nat, H: nat, NS: nat, n: nat, garbage: WRow) returns (shard: seq<WRow>)
    requires NS >= 2 && n < NS && |src| == Area(E, H)
    ensures ShardAgrees(shard, src, E, H, Bound(H, NS, n), Bound(H, NS, n + 1))
  {
    hide Flat, Area, Bound, SameRow;
    BoundMonotone(H, NS, n);
    var rs, re := Bound(H, NS, n), Bound(H, NS, n + 1);
    shard := seq(|src|, _ => garbage);
    for e := 0 to E
      invariant |shard| == |src|
      invariant forall f, r :: 0 <= f < e && rs <= r < re ==> SameRow(shard, src, f, r, H)
    {
      shard := CopyRows(shard, src, e, E, H, rs, re);
    }
  }
}
