/** What MOE's forward passes leave in the output, said of the weight tensors, the routing and the inputs alone. */
module MoeMeaning {
  import opened MoeJobs
  import opened Moes
  import opened Tables
  import VectorSums

  /** A reading of blocks, routing weights and outputs as real numbers under which the kernels that scale and
      accumulate do what their names say; a single lane of a block is one. */
  ghost predicate Linear(kernel: Kernel, val: Block -> real, coef: Factor -> real, read: Out -> real) {
    && (forall x, w :: val(kernel.scale(x, w)) == val(x) * coef(w))
    && (forall a, x, w :: val(kernel.mulAdd(a, x, w)) == val(a) + val(x) * coef(w))
    && (forall x :: read(kernel.store(x)) == val(x))
  }

  lemma {:induction false} MixIsSum(kernel: Kernel, val: Block -> real, coef: Factor -> real, read: Out -> real, values: seq<Block>,
                                    ws: seq<Factor>, terms: VectorSums.Vec, n: nat)
    requires Linear(kernel, val, coef, read) && 0 < n <= |values| == |ws| == |terms|
    requires forall i :: 0 <= i < |terms| ==> terms[i] == coef(ws[i]) * val(values[i])
    ensures val(Mix(kernel, values, ws, n)) == VectorSums.SumTo(terms, n)
  {
    if n > 1 {
      MixIsSum(kernel, val, coef, read, values, ws, terms, n - 1);
    } else {
      assert VectorSums.SumTo(terms, 1) == terms[0];
    }
  }

  /** The accumulator after each rank: the first value scaled, then one multiply-add per rank. */
  lemma {:induction false} MixSteps(kernel: Kernel, values: seq<Block>, ws: seq<Factor>, n: nat) returns (acc: seq<Block>)
    requires 0 < n <= |values| == |ws|
    ensures |acc| == n && acc[0] == kernel.scale(values[0], ws[0]) && acc[n - 1] == Mix(kernel, values, ws, n)
    ensures forall i :: 0 < i < n ==> acc[i] == kernel.mulAdd(acc[i - 1], values[i], ws[i])
  {
    if n == 1 {
      acc := [kernel.scale(values[0], ws[0])];
    } else {
      var before := MixSteps(kernel, values, ws, n - 1);
      acc := before + [Mix(kernel, values, ws, n)];
    }
  }

  /** Expert e's activated blocks for a token. */
  function Activated(m: Model, row: Row, e: nat): seq<Block>
    requires Sized(m) && e < m.experts
  {
    seq(m.nth, c requires 0 <= c < m.nth =>
      FlatBound(e, c, m.nth, m.experts);
      m.kernel.act(m.kernel.up(m.gateUp[e * m.nth + c].1, row), m.kernel.gate(m.gateUp[e * m.nth + c].0, row)))
  }

  lemma HiddenIsActivated(m: Model, row: Row, e: nat)
    requires Sized(m) && e < m.experts
    ensures HiddenRow(m, row, e) == Activated(m, row, e)
  {
    forall c | 0 <= c < m.nth ensures HiddenRow(m, row, e)[c] == Activated(m, row, e)[c] {
      FlatBound(e, c, m.nth, m.experts);
    }
  }

  /** Rank i of token t for output block b: its expert's down block times the activated blocks. */
  function Value(m: Model, xs: seq<Input>, k: nat, ids: seq<nat>, t: nat, i: nat, b: nat): Block
    requires Sized(m) && Routed(m, ids) && |ids| == Area(|xs|, k) && t < |xs| && i < k && b < m.nthDown
  {
    FlatBound(t, i, k, |xs|);
    var e := ids[t * k + i];
    FlatBound(e, b, m.nthDown, m.experts);
    m.kernel.down(m.down[e * m.nthDown + b], Activated(m, m.kernel.load(xs[t]), e))
  }

  lemma ExpertIsValue(m: Model, xs: seq<Input>, k: nat, ids: seq<nat>, t: nat, i: nat, b: nat)
    requires Sized(m) && Routed(m, ids) && |ids| == Area(|xs|, k) && t < |xs| && i < k && b < m.nthDown
    ensures Ranks(ids, k, t, |xs|)[i] < m.experts
    ensures ExpertBlock(m, m.kernel.load(xs[t]), Ranks(ids, k, t, |xs|)[i], b) == Value(m, xs, k, ids, t, i, b)
  {
    hide HiddenRow, Activated, Area;
    FlatBound(t, i, k, |xs|);
    var e := ids[t * k + i];
    HiddenIsActivated(m, m.kernel.load(xs[t]), e);
    FlatBound(e, b, m.nthDown, m.experts);
  }

  /** The expert outputs of token t, rank by rank, and the output block stored from them. */
  lemma Values(output: seq<Out>, m: Model, xs: seq<Input>, k: nat, ids: seq<nat>, ws: seq<Factor>, n: int, t: nat, b: nat)
    returns (values: seq<Block>)
    requires Sized(m) && Routed(m, ids) && 0 < k && |ids| == |ws| == Area(|xs|, k) && t < |xs| && t < n && b < m.nthDown
    requires AllWritten(output, m, xs, k, ids, ws, n)
    ensures |values| == k && forall i :: 0 <= i < k ==> values[i] == Value(m, xs, k, ids, t, i, b)
    ensures t * m.nthDown + b < |output|
    ensures output[t * m.nthDown + b] == m.kernel.store(Mix(m.kernel, values, Ranks(ws, k, t, |xs|), k))
  {
    hide ExpertBlock, Value, Mix;
    var es := Ranks(ids, k, t, |xs|);
    forall i | 0 <= i < k
      ensures es[i] < m.experts && ExpertBlock(m, m.kernel.load(xs[t]), es[i], b) == Value(m, xs, k, ids, t, i, b)
    {
      ExpertIsValue(m, xs, k, ids, t, i, b);
    }
    values := seq(k, i requires 0 <= i < k => ExpertBlock(m, m.kernel.load(xs[t]), es[i], b));
    assert OutputIs(output, Area(t, m.nthDown) + b, TokenBlock(m, xs[t], es, Ranks(ws, k, t, |xs|), b));
  }

  lemma RanksFit(t: nat, k: nat, qlen: nat)
    requires t < qlen
    ensures t * k + k <= Area(qlen, k)
  {
    MulLe(t + 1, qlen, k);
  }

  /** An output block as the code accumulates it, rank by rank, whatever the kernels compute. */
  lemma ForwardSteps(output: seq<Out>, m: Model, xs: seq<Input>, k: nat, ids: seq<nat>, ws: seq<Factor>, n: int, t: nat, b: nat)
    returns (acc: seq<Block>)
    requires Sized(m) && Routed(m, ids) && 0 < k && |ids| == |ws| == Area(|xs|, k) && t < |xs| && t < n && b < m.nthDown
    requires AllWritten(output, m, xs, k, ids, ws, n)
    ensures |acc| == k && t * k + k <= |ws| && t * m.nthDown + b < |output|
    ensures acc[0] == m.kernel.scale(Value(m, xs, k, ids, t, 0, b), ws[t * k])
    ensures forall i :: 0 < i < k ==> acc[i] == m.kernel.mulAdd(acc[i - 1], Value(m, xs, k, ids, t, i, b), ws[t * k + i])
    ensures output[t * m.nthDown + b] == m.kernel.store(acc[k - 1])
  {
    RanksFit(t, k, |xs|);
    hide Area, Value, Mix;
    var values := Values(output, m, xs, k, ids, ws, n, t, b);
    acc := MixSteps(m.kernel, values, Ranks(ws, k, t, |xs|), k);
  }

  /** Routing weight times expert output, for each rank of token t. */
  function Terms(m: Model, xs: seq<Input>, k: nat, ids: seq<nat>, ws: seq<Factor>, t: nat, b: nat,
                 val: Block -> real, coef: Factor -> real): (r: VectorSums.Vec)
    requires Sized(m) && Routed(m, ids) && |ids| == |ws| == Area(|xs|, k) && t < |xs| && b < m.nthDown
    ensures |r| == k && t * k + k <= |ws|
    ensures forall i :: 0 <= i < k ==> r[i] == coef(ws[t * k + i]) * val(Value(m, xs, k, ids, t, i, b))
  {
    RanksFit(t, k, |xs|);
    seq(k, i requires 0 <= i < k => coef(ws[t * k + i]) * val(Value(m, xs, k, ids, t, i, b)))
  }

  /** An output block in real numbers: the sum over the token's ranks of routing weight times expert output. */
  lemma ForwardSum(output: seq<Out>, m: Model, xs: seq<Input>, k: nat, ids: seq<nat>, ws: seq<Factor>, n: int, t: nat, b: nat,
                   val: Block -> real, coef: Factor -> real, read: Out -> real)
    requires Sized(m) && Routed(m, ids) && 0 < k && |ids| == |ws| == Area(|xs|, k) && t < |xs| && t < n && b < m.nthDown
    requires AllWritten(output, m, xs, k, ids, ws, n) && Linear(m.kernel, val, coef, read)
    ensures t * m.nthDown + b < |output|
    ensures read(output[t * m.nthDown + b]) == VectorSums.Sum(Terms(m, xs, k, ids, ws, t, b, val, coef))
  {
    hide Area, Value, Mix, AllWritten, Terms, Linear;
    var values := Values(output, m, xs, k, ids, ws, n, t, b);
    var terms, mine := Terms(m, xs, k, ids, ws, t, b, val, coef), Ranks(ws, k, t, |xs|);
    forall i | 0 <= i < k ensures terms[i] == coef(mine[i]) * val(values[i]) { }
    hide Ranks, Routed;
    MixIsSum(m.kernel, val, coef, read, values, mine, terms, k);
    ReadsStored(m.kernel, val, coef, read, Mix(m.kernel, values, mine, k));
  }

  lemma ReadsStored(kernel: Kernel, val: Block -> real, coef: Factor -> real, read: Out -> real, x: Block)
    requires Linear(kernel, val, coef, read)
    ensures read(kernel.store(x)) == val(x)
  {
  }
}
