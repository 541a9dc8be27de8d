/** What MOE_V2's forward passes leave in the output, said of the weight tensors, the routing and the inputs alone.
    The sliced, the grouped and the per-token path all end in `TokenIs`. */
module MoeV2Meaning {
  import opened MoeV2
  import opened MoeV2Engine
  import opened Tables
  import VectorSums

  /** Expert e's activations for a token: SiLU(gate row i) times up row i, rounded. */
  function Activated(net: Net, x: XRow, e: nat): seq<Half>
    requires Sized(net) && e < net.E
  {
    seq(net.I, i requires 0 <= i < net.I =>
      FlatBound(e, i, 2 * net.I, net.E);
      FlatBound(e, net.I + i, 2 * net.I, net.E);
      net.ops.round(net.ops.silu(net.ops.dotUp(x, net.w13[e * (2 * net.I) + i], e, i),
                                 net.ops.dotUp(x, net.w13[e * (2 * net.I) + (net.I + i)], e, net.I + i))))
  }

  /** Element h of expert e's output for a token. */
  function Value(net: Net, x: XRow, e: nat, h: nat): Num
    requires Sized(net) && e < net.E && h < net.H
  {
    FlatBound(e, h, net.H, net.E);
    net.ops.dotDown(Activated(net, x, e), net.w2[e * net.H + h], e, h)
  }

  lemma HidIsActivated(net: Net, x: XRow, e: nat)
    requires Sized(net) && e < net.E
    ensures Hid(net, x, e) == Activated(net, x, e)
  {
    forall i | 0 <= i < net.I ensures HidCell(net, x, e, i) == Activated(net, x, e)[i] {
      RowsOf(net, e, i);
      hide Area, Flat;
    }
    hide HidCell, Activated;
  }

  lemma RowsOf(net: Net, e: nat, i: nat)
    requires Sized(net) && e < net.E && i < net.I
    ensures Flat(e, i, 2 * net.I) == e * (2 * net.I) + i < |net.w13|
    ensures Flat(e, net.I + i, 2 * net.I) == e * (2 * net.I) + (net.I + i) < |net.w13|
  {
    FlatBound(e, i, 2 * net.I, net.E);
    FlatBound(e, net.I + i, 2 * net.I, net.E);
  }

  lemma OutIsValue(net: Net, x: XRow, e: nat, h: nat)
    requires Sized(net) && e < net.E && h < net.H
    ensures OutCell(net, x, e, h) == Value(net, x, e, h)
  {
    hide Hid, Activated;
    HidIsActivated(net, x, e);
    FlatBound(e, h, net.H, net.E);
  }

  /** The accumulator before and after each rank: a rank counts when its expert exists and its weight is not zero. */
  lemma {:induction false} CellSteps(net: Net, x: XRow, ids: seq<nat>, ws: seq<Factor>, first: nat, n: nat, h: nat) returns (acc: seq<Num>)
    requires Sized(net) && |ids| == |ws| && first + n <= |ids| && h < net.H
    ensures |acc| == n + 1 && acc[0] == net.ops.zero && acc[n] == TokenCell(net, x, ids, ws, first, n, h)
    ensures forall r :: 0 <= r < n ==>
      (acc[r + 1] == if ids[first + r] < net.E && !net.ops.isZero(ws[first + r])
                     then net.ops.mulAdd(acc[r], ws[first + r], Value(net, x, ids[first + r], h)) else acc[r])
  {
    hide OutCell, Value, Sized;
    if n == 0 {
      acc := [net.ops.zero];
    } else {
      var before := CellSteps(net, x, ids, ws, first, n - 1, h);
      acc := before + [TokenCell(net, x, ids, ws, first, n, h)];
      if ids[first + n - 1] < net.E { OutIsValue(net, x, ids[first + n - 1], h); }
    }
  }

  lemma CellOfToken(net: Net, out: seq<Num>, input: seq<XRow>, ids: seq<nat>, ws: seq<Factor>, k: nat, t: nat, h: nat)
    requires Sized(net) && |ids| == |ws| == Area(|input|, k) && t < |input| && h < net.H && TokenIs(net, out, input, ids, ws, k, t, k)
    ensures t * net.H + h < |out| && t * k + k <= |ids|
    ensures out[t * net.H + h] == TokenCell(net, input[t], ids, ws, t * k, k, h)
  {
    AreaLe(t + 1, |input|, k);
    AreaAdd(t, 1, k);
    assert Holds(out, t, h, net.H, TokenCell(net, input[t], ids, ws, Area(t, k), k, h));
  }

  /** An output element as the code accumulates it, rank by rank, whatever the kernels compute. */
  lemma TokenSteps(net: Net, out: seq<Num>, input: seq<XRow>, ids: seq<nat>, ws: seq<Factor>, k: nat, t: nat, h: nat) returns (acc: seq<Num>)
    requires Sized(net) && |ids| == |ws| == Area(|input|, k) && t < |input| && h < net.H && TokenIs(net, out, input, ids, ws, k, t, k)
    ensures |acc| == k + 1 && t * k + k <= |ids| && t * net.H + h < |out|
    ensures acc[0] == net.ops.zero && out[t * net.H + h] == acc[k]
    ensures forall r :: 0 <= r < k ==>
      (acc[r + 1] == if ids[t * k + r] < net.E && !net.ops.isZero(ws[t * k + r])
                     then net.ops.mulAdd(acc[r], ws[t * k + r], Value(net, input[t], ids[t * k + r], h)) else acc[r])
  {
    hide TokenIs, TokenCell, Value, Sized, Area;
    CellOfToken(net, out, input, ids, ws, k, t, h);
    acc := CellSteps(net, input[t], ids, ws, t * k, k, h);
  }

  // ----- In real numbers.

  /** A reading of numbers and routing weights as reals under which accumulation is a multiply-add. */
  ghost predicate Linear(ops: Ops, val: Num -> real, coef: Factor -> real) {
    && val(ops.zero) == 0.0
    && (forall a, w, d :: val(ops.mulAdd(a, w, d)) == val(a) + coef(w) * val(d))
    && (forall w :: ops.isZero(w) ==> coef(w) == 0.0)
  }

  /** Routing weight times expert output; an expert that does not exist adds nothing. */
  function Term(net: Net, x: XRow, e: nat, w: Factor, h: nat, val: Num -> real, coef: Factor -> real): real
    requires Sized(net) && h < net.H
  {
    if e < net.E then coef(w) * val(Value(net, x, e, h)) else 0.0
  }

  /** The terms of a token routed to experts es with weights ws. */
  function Terms(net: Net, x: XRow, es: seq<nat>, ws: seq<Factor>, h: nat, val: Num -> real, coef: Factor -> real): (r: VectorSums.Vec)
    requires Sized(net) && |es| == |ws| && h < net.H
    ensures |r| == |es| && forall i :: 0 <= i < |es| ==> r[i] == Term(net, x, es[i], ws[i], h, val, coef)
  {
    seq(|es|, i requires 0 <= i < |es| => Term(net, x, es[i], ws[i], h, val, coef))
  }

  lemma {:induction false} StepsSum(ops: Ops, val: Num -> real, coef: Factor -> real, acc: seq<Num>, terms: VectorSums.Vec, n: nat)
    requires n <= |terms| && |acc| == |terms| + 1 && val(acc[0]) == 0.0
    requires forall r :: 0 <= r < |terms| ==> val(acc[r + 1]) == val(acc[r]) + terms[r]
    ensures val(acc[n]) == VectorSums.SumTo(terms, n)
  {
    if n > 0 { StepsSum(ops, val, coef, acc, terms, n - 1); }
  }

  /** An output element in real numbers: the sum, over all ranks of the token whose expert exists, of routing
      weight times expert output. */
  lemma TokenSum(net: Net, out: seq<Num>, input: seq<XRow>, ids: seq<nat>, ws: seq<Factor>, k: nat, t: nat, h: nat,
                 val: Num -> real, coef: Factor -> real)
    requires Sized(net) && |ids| == |ws| == Area(|input|, k) && t < |input| && h < net.H && TokenIs(net, out, input, ids, ws, k, t, k)
    requires Linear(net.ops, val, coef)
    ensures t * net.H + h < |out| && t * k + k <= |ids|
    ensures val(out[t * net.H + h]) == VectorSums.Sum(Terms(net, input[t], ids[t * k..t * k + k], ws[t * k..t * k + k], h, val, coef))
  {
    hide TokenIs, Value, Sized, Area, Terms;
    var acc := TokenSteps(net, out, input, ids, ws, k, t, h);
    var es, mine := ids[t * k..t * k + k], ws[t * k..t * k + k];
    var terms := Terms(net, input[t], es, mine, h, val, coef);
    forall r | 0 <= r < k ensures val(acc[r + 1]) == val(acc[r]) + terms[r] {
      assert es[r] == ids[t * k + r] && mine[r] == ws[t * k + r];
    }
    StepsSum(net.ops, val, coef, acc, terms, k);
  }
}
