/** The expert reorder of MOE::forward_many_m: assignment p (token p / k, rank p % k) gets row
    expert_reorder_offset[expert] + position of the shared gather buffer. */
module MoeReorder {
  import opened Tables

  /** How many of the first n assignments go to expert e. */
  function Count(ids: seq<nat>, e: nat, n: nat): nat
    requires n <= |ids|
  {
    if n == 0 then 0 else Count(ids, e, n - 1) + if ids[n - 1] == e then 1 else 0
  }

  /** How many of the first n assignments go to experts before e. */
  function Offset(ids: seq<nat>, e: nat, n: nat): nat
    requires n <= |ids|
  {
    if e == 0 then 0 else Offset(ids, e - 1, n) + Count(ids, e - 1, n)
  }

  function RowOf(ids: seq<nat>, p: nat): nat
    requires p < |ids|
  {
    Offset(ids, ids[p], |ids|) + Count(ids, ids[p], p)
  }

  lemma {:induction false} CountMonotone(ids: seq<nat>, e: nat, m: nat, n: nat)
    requires m <= n <= |ids|
    ensures Count(ids, e, m) <= Count(ids, e, n)
    decreases n
  {
    if m < n { CountMonotone(ids, e, m, n - 1); }
  }

  lemma {:induction false} OffsetMonotone(ids: seq<nat>, d: nat, e: nat)
    requires d <= e
    ensures Offset(ids, d, |ids|) <= Offset(ids, e, |ids|)
    decreases e
  {
    if d < e { OffsetMonotone(ids, d, e - 1); }
  }

  lemma {:induction false} OffsetStep(ids: seq<nat>, e: nat, n: nat)
    requires 0 < n <= |ids|
    ensures Offset(ids, e, n) == Offset(ids, e, n - 1) + if ids[n - 1] < e then 1 else 0
  {
    if e > 0 { OffsetStep(ids, e - 1, n); }
  }

  lemma {:induction false} OffsetEmpty(ids: seq<nat>, e: nat)
    ensures Offset(ids, e, 0) == 0
  {
    if e > 0 { OffsetEmpty(ids, e - 1); }
  }

  /** The experts' row blocks together are exactly as many rows as there are assignments. */
  lemma {:induction false} OffsetsFill(ids: seq<nat>, experts: nat, n: nat)
    requires n <= |ids| && forall p :: 0 <= p < |ids| ==> ids[p] < experts
    ensures Offset(ids, experts, n) == n
  {
    if n == 0 {
      OffsetEmpty(ids, experts);
    } else {
      OffsetStep(ids, experts, n);
      OffsetsFill(ids, experts, n - 1);
    }
  }

  /** A row lies in its expert's block of rows. */
  lemma RowInBlock(ids: seq<nat>, p: nat)
    requires p < |ids|
    ensures Count(ids, ids[p], p) < Count(ids, ids[p], |ids|)
    ensures Offset(ids, ids[p], |ids|) <= RowOf(ids, p) < Offset(ids, ids[p] + 1, |ids|)
  {
    CountMonotone(ids, ids[p], p + 1, |ids|);
  }

  lemma RowInRange(ids: seq<nat>, experts: nat, p: nat)
    requires p < |ids| && forall q :: 0 <= q < |ids| ==> ids[q] < experts
    ensures RowOf(ids, p) < |ids|
  {
    RowInBlock(ids, p);
    OffsetMonotone(ids, ids[p] + 1, experts);
    OffsetsFill(ids, experts, |ids|);
  }

  lemma RowsApart(ids: seq<nat>, p: nat, q: nat)
    requires p < q < |ids|
    ensures RowOf(ids, p) != RowOf(ids, q)
  {
    RowInBlock(ids, p);
    RowInBlock(ids, q);
    if ids[p] == ids[q] {
      CountMonotone(ids, ids[p], p + 1, q);
    } else if ids[p] < ids[q] {
      OffsetMonotone(ids, ids[p] + 1, ids[q]);
    } else {
      OffsetMonotone(ids, ids[q] + 1, ids[p]);
    }
  }

  lemma {:induction false} RowHolder(ids: seq<nat>, e: nat, r: nat, n: nat) returns (p: nat)
    requires n <= |ids| && r < Count(ids, e, n)
    ensures p < n && ids[p] == e && Count(ids, e, p) == r
  {
    if Count(ids, e, n - 1) == r && ids[n - 1] == e {
      p := n - 1;
    } else {
      p := RowHolder(ids, e, r, n - 1);
    }
  }

  lemma {:induction false} BlockHolding(ids: seq<nat>, r: nat, e: nat) returns (d: nat)
    requires r < Offset(ids, e, |ids|)
    ensures d < e && Offset(ids, d, |ids|) <= r < Offset(ids, d + 1, |ids|)
  {
    if Offset(ids, e - 1, |ids|) <= r { d := e - 1; } else { d := BlockHolding(ids, r, e - 1); }
  }

  /** The reorder is a bijection from the assignments onto the rows [0, |ids|). */
  lemma ReorderIsBijection(ids: seq<nat>, experts: nat, r: nat) returns (p: nat)
    requires r < |ids| && forall q :: 0 <= q < |ids| ==> ids[q] < experts
    ensures p < |ids| && RowOf(ids, p) == r && forall q: nat :: q < |ids| && RowOf(ids, q) == r ==> q == p
  {
    OffsetsFill(ids, experts, |ids|);
    var e := BlockHolding(ids, r, experts);
    p := RowHolder(ids, e, r - Offset(ids, e, |ids|), |ids|);
    forall q: nat | q < |ids| && q != p ensures RowOf(ids, q) != r {
      if q < p { RowsApart(ids, q, p); } else { RowsApart(ids, p, q); }
    }
  }

  /** The first |pos| assignments have been counted. */
  ghost predicate Counted(ids: seq<nat>, pos: seq<nat>, selected: seq<nat>, experts: nat) {
    && |pos| <= |ids| && |selected| == experts
    && (forall p :: 0 <= p < |pos| ==> pos[p] == Count(ids, ids[p], p))
    && (forall e :: 0 <= e < experts ==> selected[e] == Count(ids, e, |pos|))
  }

  lemma CountedStep(ids: seq<nat>, pos: seq<nat>, selected: seq<nat>, experts: nat)
    requires Counted(ids, pos, selected, experts) && |pos| < |ids| && ids[|pos|] < experts
    ensures var id := ids[|pos|]; Counted(ids, pos + [selected[id]], selected[id := selected[id] + 1], experts)
  {
  }

  /** The two counting loops of forward_many_m; ids[i * k + j] is token i's j-th expert. */
  method Reorder(ids: seq<nat>, experts: nat, qlen: nat, k: nat)
    returns (pos: seq<nat>, offset: seq<nat>, selected: seq<nat>)
    requires |ids| == Area(qlen, k) && forall p :: 0 <= p < |ids| ==> ids[p] < experts
    ensures |pos| == |ids| && |offset| == |selected| == experts
    ensures forall p :: 0 <= p < |ids| ==> offset[ids[p]] + pos[p] == RowOf(ids, p)
    ensures forall e :: 0 <= e < experts ==> offset[e] == Offset(ids, e, |ids|) && selected[e] == Count(ids, e, |ids|)
  {
    selected := seq(experts, _ => 0);
    pos := [];
    assert Counted(ids, pos, selected, experts);
    hide Counted;
    for i := 0 to qlen
      invariant |pos| == i * k && Counted(ids, pos, selected, experts) && |selected| == experts
    {
      FlatSlots(i, k, qlen);
      for j := 0 to k
        invariant |pos| == i * k + j && Counted(ids, pos, selected, experts) && |selected| == experts
      {
        var id := ids[i * k + j];
        CountedStep(ids, pos, selected, experts);
        pos := pos + [selected[id]];
        selected := selected[id := selected[id] + 1];
      }
    }
    CountedAll(ids, pos, selected, experts);
    offset := Offsets(ids, selected, experts);
  }

  lemma CountedAll(ids: seq<nat>, pos: seq<nat>, selected: seq<nat>, experts: nat)
    requires Counted(ids, pos, selected, experts) && |pos| == |ids|
    ensures forall p :: 0 <= p < |ids| ==> pos[p] == Count(ids, ids[p], p)
    ensures forall e :: 0 <= e < experts ==> selected[e] == Count(ids, e, |ids|)
  {
  }

  method Offsets(ids: seq<nat>, selected: seq<nat>, experts: nat) returns (offset: seq<nat>)
    requires |selected| == experts && forall e :: 0 <= e < experts ==> selected[e] == Count(ids, e, |ids|)
    ensures |offset| == experts && forall e :: 0 <= e < experts ==> offset[e] == Offset(ids, e, |ids|)
  {
    var reorderOffset := 0;
    offset := [];
    for e := 0 to experts
      invariant |offset| == e && reorderOffset == Offset(ids, e, |ids|)
      invariant forall d :: 0 <= d < e ==> offset[d] == Offset(ids, d, |ids|)
    {
      offset := offset + [reorderOffset];
      reorderOffset := reorderOffset + selected[e];
    }
  }

  lemma FlatSlots(i: nat, k: nat, qlen: nat)
    requires i < qlen
    ensures i * k + k == (i + 1) * k <= Area(qlen, k)
  {
    MulLe(i + 1, qlen, k);
  }
}
