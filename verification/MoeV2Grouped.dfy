/** MOE_V2::forward_many without row slicing: the grouped three-phase path and the per-token loop, with the
    same floating-point operations in the same order. */
module MoeV2Grouped {
  import opened MoeV2
  import opened MoeV2Engine
  import opened MoeV2Sliced
  import opened Tables

  /** Positions [ab, ae) of expert eid's list of assignments. */
  datatype Job = Job(eid: nat, ab: nat, ae: nat)

  predicate InJob(job: Job, e: nat, p: nat) {
    job.eid == e && job.ab <= p < job.ae
  }

  ghost predicate Increasing(s: seq<nat>) {
    forall a, b :: 0 <= a < b < |s| ==> s[a] < s[b]
  }

  // ----- Expert lists.

  ghost predicate OwnList(net: Net, lst: seq<nat>, ids: seq<nat>, ws: seq<Factor>, e: nat)
    requires |ids| == |ws|
  {
    Increasing(lst) && forall p :: 0 <= p < |lst| ==> Valid(net, ids, ws, lst[p]) && ids[lst[p]] == e
  }

  /** Every valid assignment is on its expert's list, every list is increasing and has only own assignments, and
      the active experts are those with a list that is not empty. */
  ghost predicate Lists(net: Net, perExpert: seq<seq<nat>>, active: seq<nat>, ids: seq<nat>, ws: seq<Factor>)
    requires |ids| == |ws|
  {
    && |perExpert| == net.E && Increasing(active)
    && (forall e :: e in active ==> e < net.E)
    && (forall e :: 0 <= e < net.E ==> OwnList(net, perExpert[e], ids, ws, e))
    && (forall ai: nat :: Valid(net, ids, ws, ai) ==> ids[ai] in active && ai in perExpert[ids[ai]])
  }

  method BuildLists(net: Net, ids: seq<nat>, ws: seq<Factor>) returns (perExpert: seq<seq<nat>>, active: seq<nat>)
    requires |ids| == |ws|
    ensures Lists(net, perExpert, active, ids, ws)
  {
    var count := CountValid(net, ids, ws);
    perExpert, active := seq(net.E, _ => []), [];
    for e := 0 to net.E
      invariant Increasing(active) && forall d :: d in active ==> d < e
      invariant forall d :: 0 <= d < e && count[d] > 0 ==> d in active
    {
      if count[e] > 0 {
        assert forall a :: 0 <= a < |active| ==> active[a] in active;
        active := active + [e];
      }
    }
    hide Valid;
    for ai := 0 to |ids|
      invariant |perExpert| == net.E
      invariant forall e :: 0 <= e < net.E ==> OwnList(net, perExpert[e], ids, ws, e) && forall p :: 0 <= p < |perExpert[e]| ==> perExpert[e][p] < ai
      invariant forall l: nat :: l < ai && Valid(net, ids, ws, l) ==> ids[l] < net.E && l in perExpert[ids[l]]
    {
      ValidMeans(net, ids, ws, ai);
      if Valid(net, ids, ws, ai) {
        var lst := perExpert[ids[ai]];
        assert (lst + [ai])[|lst|] == ai;
        perExpert := perExpert[ids[ai] := lst + [ai]];
      }
    }
  }

  lemma ValidMeans(net: Net, ids: seq<nat>, ws: seq<Factor>, ai: nat)
    requires |ids| == |ws|
    ensures Valid(net, ids, ws, ai) ==> ai < |ids| && ids[ai] < net.E
  {
  }

  // ----- Jobs.

  ghost predicate Covered(jobs: seq<Job>, e: nat, p: nat) {
    exists j :: 0 <= j < |jobs| && InJob(jobs[j], e, p)
  }

  /** The jobs of the active experts cut their lists into disjoint stretches that leave nothing out. */
  ghost predicate Chunked(jobs: seq<Job>, perExpert: seq<seq<nat>>, active: seq<nat>) {
    && (forall j :: 0 <= j < |jobs| ==> jobs[j].eid in active && jobs[j].eid < |perExpert| && jobs[j].ab < jobs[j].ae <= |perExpert[jobs[j].eid]|)
    && (forall i, j :: 0 <= i < j < |jobs| && jobs[i].eid == jobs[j].eid ==> jobs[i].ae <= jobs[j].ab)
    && (forall e, p :: e in active && e < |perExpert| && 0 <= p < |perExpert[e]| ==> Covered(jobs, e, p))
  }

  lemma CoveredMore(jobs: seq<Job>, more: Job, e: nat, p: nat)
    requires Covered(jobs, e, p) || InJob(more, e, p)
    ensures Covered(jobs + [more], e, p)
  {
    if InJob(more, e, p) {
      assert InJob((jobs + [more])[|jobs|], e, p);
    } else {
      var j :| 0 <= j < |jobs| && InJob(jobs[j], e, p);
      assert InJob((jobs + [more])[j], e, p);
    }
  }

  method MakeJobs(perExpert: seq<seq<nat>>, active: seq<nat>, perjob: nat) returns (jobs: seq<Job>)
    requires perjob > 0 && Increasing(active) && forall e :: e in active ==> e < |perExpert|
    ensures Chunked(jobs, perExpert, active)
  {
    jobs := [];
    for x := 0 to |active|
      invariant Chunked(jobs, perExpert, active[..x])
    {
      assert active[x] in active;
      jobs := JobsOf(jobs, perExpert, active, x, perjob);
    }
    assert active[..|active|] == active;
  }

  method JobsOf(jobs0: seq<Job>, perExpert: seq<seq<nat>>, active: seq<nat>, x: nat, perjob: nat) returns (jobs: seq<Job>)
    requires perjob > 0 && x < |active| && Increasing(active) && active[x] < |perExpert| && Chunked(jobs0, perExpert, active[..x])
    ensures Chunked(jobs, perExpert, active[..x + 1])
  {
    hide Covered;
    var e, b := active[x], 0;
    var lst := perExpert[e];
    jobs := jobs0;
    assert forall j :: 0 <= j < |jobs0| ==> jobs0[j].eid != e;
    while b < |lst|
      invariant forall j :: 0 <= j < |jobs| ==> jobs[j].eid in active[..x] || jobs[j].eid == e
      invariant forall j :: 0 <= j < |jobs| ==> jobs[j].eid < |perExpert| && jobs[j].ab < jobs[j].ae <= |perExpert[jobs[j].eid]|
      invariant forall j :: 0 <= j < |jobs| && jobs[j].eid == e ==> jobs[j].ae <= b
      invariant forall i, j :: 0 <= i < j < |jobs| && jobs[i].eid == jobs[j].eid ==> jobs[i].ae <= jobs[j].ab
      invariant forall d, p :: d in active[..x] && d < |perExpert| && 0 <= p < |perExpert[d]| ==> Covered(jobs, d, p)
      invariant forall p :: 0 <= p < b && p < |lst| ==> Covered(jobs, e, p)
      decreases |lst| - b
    {
      var job := Job(e, b, if b + perjob < |lst| then b + perjob else |lst|);
      forall d: nat, p: nat | Covered(jobs, d, p) || InJob(job, d, p) ensures Covered(jobs + [job], d, p) {
        CoveredMore(jobs, job, d, p);
      }
      jobs := jobs + [job];
      b := b + perjob;
    }
    assert forall d :: d in active[..x + 1] <==> d in active[..x] || d == e;
  }

  /** Each valid assignment lies in exactly one job, at exactly one place. */
  lemma InOneJob(net: Net, jobs: seq<Job>, perExpert: seq<seq<nat>>, active: seq<nat>, ids: seq<nat>, ws: seq<Factor>, ai: nat)
    returns (j: nat, p: nat)
    requires |ids| == |ws| && Lists(net, perExpert, active, ids, ws) && Chunked(jobs, perExpert, active) && Valid(net, ids, ws, ai)
    ensures At(jobs, perExpert, j, p, ai) && jobs[j].eid == ids[ai]
    ensures forall i, q :: At(jobs, perExpert, i, q, ai) ==> i == j && q == p
  {
    var e := ids[ai];
    p :| 0 <= p < |perExpert[e]| && perExpert[e][p] == ai;
    assert Covered(jobs, e, p);
    j :| 0 <= j < |jobs| && InJob(jobs[j], e, p);
    hide Valid, Covered;
    forall i, q | At(jobs, perExpert, i, q, ai) ensures i == j && q == p {
      assert OwnList(net, perExpert[jobs[i].eid], ids, ws, jobs[i].eid);
      assert OwnList(net, perExpert[e], ids, ws, e);
    }
  }

  /** Job j has assignment ai at position p of its expert's list. */
  ghost predicate At(jobs: seq<Job>, perExpert: seq<seq<nat>>, j: int, p: int, ai: nat) {
    && 0 <= j < |jobs| && jobs[j].eid < |perExpert| && jobs[j].ab <= p < jobs[j].ae && p < |perExpert[jobs[j].eid]|
    && perExpert[jobs[j].eid][p] == ai
  }

  // ----- What a job computes for one assignment.

  function ActRow(net: Net, x: XRow, e: nat): seq<Num>
    requires Sized(net) && e < net.E
  {
    seq(net.I, i requires 0 <= i < net.I => net.ops.silu(GateUpCell(net, x, e, i), GateUpCell(net, x, e, net.I + i)))
  }

  /** convert_f32_to_bf16, then the down kernel. */
  function DownRow(net: Net, act: seq<Num>, e: nat): seq<Num>
    requires Sized(net) && e < net.E
  {
    var half := seq(|act|, i requires 0 <= i < |act| => net.ops.round(act[i]));
    seq(net.H, h requires 0 <= h < net.H => FlatBound(e, h, net.H, net.E); net.ops.dotDown(half, net.w2[Flat(e, h, net.H)], e, h))
  }

  lemma DownOfAct(net: Net, x: XRow, e: nat, h: nat)
    requires Sized(net) && e < net.E && h < net.H
    ensures |DownRow(net, ActRow(net, x, e), e)| == net.H && DownRow(net, ActRow(net, x, e), e)[h] == OutCell(net, x, e, h)
  {
    var act := ActRow(net, x, e);
    assert seq(|act|, i requires 0 <= i < |act| => net.ops.round(act[i])) == Hid(net, x, e);
  }

  /** Scratch row ai is what it should be. */
  ghost predicate ActIs(net: Net, act: seq<seq<Num>>, input: seq<XRow>, ids: seq<nat>, k: nat, ai: nat)
    requires Sized(net)
  {
    0 < k && ai < |ids| && ai < |act| && ids[ai] < net.E && ai / k < |input| && act[ai] == ActRow(net, input[ai / k], ids[ai])
  }

  ghost predicate DownIs(net: Net, down: seq<seq<Num>>, input: seq<XRow>, ids: seq<nat>, k: nat, ai: nat)
    requires Sized(net)
  {
    && 0 < k && ai < |ids| && ai < |down| && ids[ai] < net.E && ai / k < |input|
    && down[ai] == DownRow(net, ActRow(net, input[ai / k], ids[ai]), ids[ai])
  }

  /** The class's persistent scratch: one activation row and one output row per assignment. */
  class MOE_V2_Grouped {
    const net: Net
    var actScratch: seq<seq<Num>>
    var downScratch: seq<seq<Num>>

    constructor (net: Net)
      ensures this.net == net
    {
      this.net := net;
      actScratch, downScratch := [], [];
    }

    /** Phase 1: all jobs, in any order. */
    method PhaseAct(jobs: seq<Job>, perExpert: seq<seq<nat>>, active: seq<nat>, k: nat, input: seq<XRow>, ids: seq<nat>, ws: seq<Factor>)
      requires Sized(net) && 0 < k && |ids| == |ws| == Area(|input|, k) == |actScratch|
      requires Lists(net, perExpert, active, ids, ws) && Chunked(jobs, perExpert, active)
      modifies `actScratch
      ensures |actScratch| == |ids| && forall ai: nat :: Valid(net, ids, ws, ai) ==> ActIs(net, actScratch, input, ids, k, ai)
    {
      hide Sized, Valid, ActIs, Lists, Chunked, Area;
      var todo := Tokens(|jobs|);
      while todo != {}
        invariant |actScratch| == |ids| && forall j :: j in todo ==> j < |jobs|
        invariant forall j: nat, p: nat :: j < |jobs| && j !in todo && PlaceOk(net, jobs, perExpert, ids, ws, j, p)
                                           ==> ActIs(net, actScratch, input, ids, k, perExpert[jobs[j].eid][p])
      {
        var ji :| ji in todo;
        var job := jobs[ji];
        JobMeans(net, jobs, perExpert, active, ids, ws, ji);
        for it := job.ab to job.ae
          invariant |actScratch| == |ids|
          invariant forall j: nat, p: nat :: j < |jobs| && (j !in todo || (j == ji && p < it)) && PlaceOk(net, jobs, perExpert, ids, ws, j, p)
                                             ==> ActIs(net, actScratch, input, ids, k, perExpert[jobs[j].eid][p])
        {
          var ai := perExpert[job.eid][it];
          PlaceMeans(net, jobs, perExpert, active, ids, ws, ji, it);
          Unflat(ai, k, |input|);
          ghost var before := actScratch;
          actScratch := actScratch[ai := ActRow(net, input[ai / k], job.eid)];
          ActKept(net, before, actScratch, input, ids, k, ai);
        }
        todo := todo - {ji};
      }
      forall ai: nat | Valid(net, ids, ws, ai) ensures ActIs(net, actScratch, input, ids, k, ai) {
        var j, p := InOneJob(net, jobs, perExpert, active, ids, ws, ai);
        PlaceOfValid(net, jobs, perExpert, ids, ws, j, p, ai);
      }
    }

    /** Phase 2: all jobs, in any order, from the activation scratch to the output scratch. */
    method PhaseDown(jobs: seq<Job>, perExpert: seq<seq<nat>>, active: seq<nat>, k: nat, input: seq<XRow>, ids: seq<nat>, ws: seq<Factor>)
      requires Sized(net) && 0 < k && |ids| == |ws| == Area(|input|, k) == |downScratch| && |actScratch| == |ids|
      requires Lists(net, perExpert, active, ids, ws) && Chunked(jobs, perExpert, active)
      requires forall ai: nat :: Valid(net, ids, ws, ai) ==> ActIs(net, actScratch, input, ids, k, ai)
      modifies `downScratch
      ensures |downScratch| == |ids| && forall ai: nat :: Valid(net, ids, ws, ai) ==> DownIs(net, downScratch, input, ids, k, ai)
    {
      hide Sized, Valid, ActIs, DownIs, Lists, Chunked, Area;
      var todo := Tokens(|jobs|);
      while todo != {}
        invariant |downScratch| == |ids| && forall j :: j in todo ==> j < |jobs|
        invariant forall j: nat, p: nat :: j < |jobs| && j !in todo && PlaceOk(net, jobs, perExpert, ids, ws, j, p)
                                           ==> DownIs(net, downScratch, input, ids, k, perExpert[jobs[j].eid][p])
      {
        var ji :| ji in todo;
        var job := jobs[ji];
        JobMeans(net, jobs, perExpert, active, ids, ws, ji);
        for it := job.ab to job.ae
          invariant |downScratch| == |ids|
          invariant forall j: nat, p: nat :: j < |jobs| && (j !in todo || (j == ji && p < it)) && PlaceOk(net, jobs, perExpert, ids, ws, j, p)
                                             ==> DownIs(net, downScratch, input, ids, k, perExpert[jobs[j].eid][p])
        {
          var ai := perExpert[job.eid][it];
          PlaceMeans(net, jobs, perExpert, active, ids, ws, ji, it);
          ghost var before := downScratch;
          downScratch := downScratch[ai := DownRow(net, actScratch[ai], job.eid)];
          DownKept(net, before, downScratch, actScratch, input, ids, k, ai);
        }
        todo := todo - {ji};
      }
      forall ai: nat | Valid(net, ids, ws, ai) ensures DownIs(net, downScratch, input, ids, k, ai) {
        var j, p := InOneJob(net, jobs, perExpert, active, ids, ws, ai);
        PlaceOfValid(net, jobs, perExpert, ids, ws, j, p, ai);
      }
    }

    /** One token of phase 3. */
    method ReduceToken(k: nat, input: seq<XRow>, ids: seq<nat>, ws: seq<Factor>, output: array<Num>, t: nat)
      requires Sized(net) && 0 < k && |ids| == |ws| == Area(|input|, k) && t < |input| && Area(|input|, net.H) <= output.Length
      requires forall ai: nat :: Valid(net, ids, ws, ai) ==> DownIs(net, downScratch, input, ids, k, ai)
      requires RowIs(net, output[..], input[t], ids, ws, Area(t, k), t, 0, 0)
      modifies output
      ensures RowIs(net, output[..], input[t], ids, ws, Area(t, k), t, k, 0) && OtherRows(net, output[..], old(output[..]), t)
    {
      hide Sized, RowIs, OtherRows, Area, Flat, DownIs;
      AreaLe(t + 1, |input|, k);
      AreaAdd(t, 1, k);
      OtherRowsSame(net, output[..], t);
      for r := 0 to k
        invariant RowIs(net, output[..], input[t], ids, ws, Area(t, k), t, r, 0) && OtherRows(net, output[..], old(output[..]), t)
      {
        var ai := Area(t, k) + r;
        if Valid(net, ids, ws, ai) {
          DownMeans(net, downScratch, input, ids, k, t, r, ai);
          AddRank(net, old(output[..]), input[t], ids, ws, Area(t, k), t, r, |input|, downScratch[ai], output);
        } else {
          RowSkip(net, output[..], input[t], ids, ws, Area(t, k), t, r);
        }
      }
    }

    /** One token of the per-token loop. */
    method DirectToken(k: nat, input: seq<XRow>, ids: seq<nat>, ws: seq<Factor>, output: array<Num>, t: nat)
      requires Sized(net) && 0 < k && |ids| == |ws| == Area(|input|, k) && t < |input| && Area(|input|, net.H) <= output.Length
      requires RowIs(net, output[..], input[t], ids, ws, Area(t, k), t, 0, 0)
      modifies output
      ensures RowIs(net, output[..], input[t], ids, ws, Area(t, k), t, k, 0) && OtherRows(net, output[..], old(output[..]), t)
    {
      hide Sized, RowIs, OtherRows, Area, Flat, ActRow, DownRow, OutCell;
      AreaLe(t + 1, |input|, k);
      AreaAdd(t, 1, k);
      OtherRowsSame(net, output[..], t);
      for r := 0 to k
        invariant RowIs(net, output[..], input[t], ids, ws, Area(t, k), t, r, 0) && OtherRows(net, output[..], old(output[..]), t)
      {
        var ai := Area(t, k) + r;
        if Valid(net, ids, ws, ai) {
          var act := ActRow(net, input[t], ids[ai]);
          var down := DownRow(net, act, ids[ai]);
          DownCells(net, input[t], ids[ai]);
          AddRank(net, old(output[..]), input[t], ids, ws, Area(t, k), t, r, |input|, down, output);
        } else {
          RowSkip(net, output[..], input[t], ids, ws, Area(t, k), t, r);
        }
      }
    }

    /** Phase 3 or the fallback: all tokens, in any order. */
    method AllTokens(grouped: bool, k: nat, input: seq<XRow>, ids: seq<nat>, ws: seq<Factor>, output: array<Num>)
      requires Sized(net) && 0 < k && |ids| == |ws| == Area(|input|, k) && Area(|input|, net.H) <= output.Length
      requires grouped ==> forall ai: nat :: Valid(net, ids, ws, ai) ==> DownIs(net, downScratch, input, ids, k, ai)
      requires forall t: nat :: t < |input| ==> TokenIs(net, output[..], input, ids, ws, k, t, 0)
      modifies output
      ensures forall t: nat :: t < |input| ==> TokenIs(net, output[..], input, ids, ws, k, t, k)
      ensures forall q: nat :: q < output.Length && Area(|input|, net.H) <= q ==> output[q] == old(output[q])
    {
      hide Sized, TokenIs, Area, OtherRows, DownIs, Valid;
      var todo := Tokens(|input|);
      while todo != {}
        modifies output
        invariant forall t :: t in todo ==> t < |input|
        invariant forall t: nat :: t < |input| && t in todo ==> TokenIs(net, output[..], input, ids, ws, k, t, 0)
        invariant forall t: nat :: t < |input| && t !in todo ==> TokenIs(net, output[..], input, ids, ws, k, t, k)
        invariant forall q: nat :: q < output.Length && Area(|input|, net.H) <= q ==> output[q] == old(output[q])
      {
        var t :| t in todo;
        ghost var before := output[..];
        TokenRow(net, before, input, ids, ws, k, t);
        if grouped {
          ReduceToken(k, input, ids, ws, output, t);
        } else {
          DirectToken(k, input, ids, ws, output, t);
        }
        todo := todo - {t};
        TokenRow(net, output[..], input, ids, ws, k, t);
        BeyondRow(net, before, output[..], t, |input|);
        forall u: nat | u < |input| && u in todo ensures TokenIs(net, output[..], input, ids, ws, k, u, 0) {
          TokenKept(net, before, output[..], input, ids, ws, k, t, u, 0);
        }
        forall u: nat | u < |input| && u !in todo ensures TokenIs(net, output[..], input, ids, ws, k, u, k) {
          if u != t { TokenKept(net, before, output[..], input, ids, ws, k, t, u, k); }
        }
      }
    }

    /** forward_many: on either path, for any threshold and chunk size, every token gets the rank-ordered sum
        that TokenCell defines, operation by operation. */
    method ForwardMany(k: nat, ids: seq<nat>, ws: seq<Factor>, input: seq<XRow>, output: array<Num>, factor: nat, perjob: nat)
      requires Sized(net) && |ids| == |ws| == Area(|input|, k) && Area(|input|, net.H) <= output.Length && factor > 0 && perjob > 0
      modifies this, output
      ensures if |input| == 0 || k == 0 || net.I == 0 || net.H == 0 then output[..] == old(output[..])
              else forall t: nat :: t < |input| ==> TokenIs(net, output[..], input, ids, ws, k, t, k)
      ensures forall q: nat :: q < output.Length && Area(|input|, net.H) <= q ==> output[q] == old(output[q])
    {
      hide Sized, TokenIs, Area, Lists, Chunked, DownIs, ActIs;
      if |input| == 0 || k == 0 || net.I == 0 || net.H == 0 {
        return;
      }
      ZeroOutput(net, output, |input|);
      ZeroTokens(net, output[..], input, ids, ws, k);
      var perExpert, active := BuildLists(net, ids, ws);
      actScratch, downScratch := Resize(actScratch, |ids|, []), Resize(downScratch, |ids|, []);
      var grouped := |active| * factor <= |ids|;
      if grouped {
        ListsMean(net, perExpert, active, ids, ws);
        var jobs := MakeJobs(perExpert, active, perjob);
        if jobs == [] {
          NoJobs(net, jobs, perExpert, active, output[..], input, ids, ws, k);
          return;
        }
        PhaseAct(jobs, perExpert, active, k, input, ids, ws);
        PhaseDown(jobs, perExpert, active, k, input, ids, ws);
      }
      AllTokens(grouped, k, input, ids, ws, output);
    }
  }

  /** out_t[h] += w * d[h] for every h. */
  method AddRank(net: Net, ghost out0: seq<Num>, ghost x: XRow, ids: seq<nat>, ws: seq<Factor>, first: nat, t: nat, r: nat, tokens: nat,
                 d: seq<Num>, output: array<Num>)
    requires Sized(net) && |ids| == |ws| && RowIs(net, output[..], x, ids, ws, first, t, r, 0) && OtherRows(net, output[..], out0, t)
    requires Valid(net, ids, ws, first + r) && t < tokens && Area(tokens, net.H) <= output.Length
    requires |d| == net.H && forall h :: 0 <= h < net.H ==> d[h] == OutCell(net, x, ids[first + r], h)
    modifies output
    ensures RowIs(net, output[..], x, ids, ws, first, t, r + 1, 0) && OtherRows(net, output[..], out0, t)
  {
    hide Sized, RowIs, OtherRows, Area, Flat, OutCell;
    for h := 0 to net.H
      invariant RowIs(net, output[..], x, ids, ws, first, t, r, h) && OtherRows(net, output[..], out0, t)
    {
      FlatBound(t, h, net.H, tokens);
      RowStep(net, output[..], out0, x, ids, ws, first, t, r, h, d[h]);
      ghost var before := output[..];
      output[Flat(t, h, net.H)] := net.ops.mulAdd(output[Flat(t, h, net.H)], ws[first + r], d[h]);
      assert output[..] == before[Flat(t, h, net.H) := output[Flat(t, h, net.H)]];
    }
    RowNext(net, output[..], x, ids, ws, first, t, r);
  }

  lemma DownCells(net: Net, x: XRow, e: nat)
    requires Sized(net) && e < net.E
    ensures var down := DownRow(net, ActRow(net, x, e), e);
      |down| == net.H && forall h :: 0 <= h < net.H ==> down[h] == OutCell(net, x, e, h)
  {
    hide OutCell, ActRow;
    var down := DownRow(net, ActRow(net, x, e), e);
    forall h | 0 <= h < net.H ensures down[h] == OutCell(net, x, e, h) { DownOfAct(net, x, e, h); }
  }

  lemma DownMeans(net: Net, down: seq<seq<Num>>, input: seq<XRow>, ids: seq<nat>, k: nat, t: nat, r: nat, ai: nat)
    requires Sized(net) && 0 < k && r < k && t < |input| && ai == Area(t, k) + r && DownIs(net, down, input, ids, k, ai)
    ensures ai < |ids| && ai < |down| && ids[ai] < net.E && |down[ai]| == net.H
    ensures forall h :: 0 <= h < net.H ==> down[ai][h] == OutCell(net, input[t], ids[ai], h)
  {
    FlatInverse(t, r, k);
    assert ai == Flat(t, r, k);
    hide Area, Flat, OutCell, ActRow, DownRow;
    DownCells(net, input[t], ids[ai]);
  }

  lemma DownKept(net: Net, down0: seq<seq<Num>>, down: seq<seq<Num>>, act: seq<seq<Num>>, input: seq<XRow>, ids: seq<nat>, k: nat, ai: nat)
    requires Sized(net) && ai < |down0| && ActIs(net, act, input, ids, k, ai) && down == down0[ai := DownRow(net, act[ai], ids[ai])]
    ensures DownIs(net, down, input, ids, k, ai)
    ensures forall b: nat :: DownIs(net, down0, input, ids, k, b) ==> DownIs(net, down, input, ids, k, b)
  {
    hide ActRow, DownRow;
  }

  lemma ListsMean(net: Net, perExpert: seq<seq<nat>>, active: seq<nat>, ids: seq<nat>, ws: seq<Factor>)
    requires |ids| == |ws| && Lists(net, perExpert, active, ids, ws)
    ensures Increasing(active) && forall e :: e in active ==> e < |perExpert|
  {
  }

  /** Without a job there is no valid assignment, and every sum is zero. */
  lemma NoJobs(net: Net, jobs: seq<Job>, perExpert: seq<seq<nat>>, active: seq<nat>, out: seq<Num>, input: seq<XRow>, ids: seq<nat>,
               ws: seq<Factor>, k: nat)
    requires Sized(net) && |ids| == |ws| == Area(|input|, k) && Lists(net, perExpert, active, ids, ws)
    requires jobs == [] && Chunked(jobs, perExpert, active)
    requires forall t: nat :: t < |input| ==> TokenIs(net, out, input, ids, ws, k, t, 0)
    ensures forall t: nat :: t < |input| ==> TokenIs(net, out, input, ids, ws, k, t, k)
  {
    hide Area, TokenIs, Valid, Sized;
    forall ai: nat ensures !Valid(net, ids, ws, ai) {
      if Valid(net, ids, ws, ai) {
        var j, p := InOneJob(net, jobs, perExpert, active, ids, ws, ai);
      }
    }
    AllInvalid(net, out, input, ids, ws, k);
  }

  /** Position p of job j names a valid assignment of the job's expert. */
  ghost predicate PlaceOk(net: Net, jobs: seq<Job>, perExpert: seq<seq<nat>>, ids: seq<nat>, ws: seq<Factor>, j: nat, p: nat)
    requires |ids| == |ws|
  {
    && j < |jobs| && jobs[j].eid < |perExpert| && jobs[j].ab <= p < jobs[j].ae && p < |perExpert[jobs[j].eid]|
    && Valid(net, ids, ws, perExpert[jobs[j].eid][p]) && ids[perExpert[jobs[j].eid][p]] == jobs[j].eid
  }

  lemma JobMeans(net: Net, jobs: seq<Job>, perExpert: seq<seq<nat>>, active: seq<nat>, ids: seq<nat>, ws: seq<Factor>, j: nat)
    requires |ids| == |ws| && Lists(net, perExpert, active, ids, ws) && Chunked(jobs, perExpert, active) && j < |jobs|
    ensures jobs[j].eid < |perExpert| && jobs[j].ab < jobs[j].ae <= |perExpert[jobs[j].eid]|
  {
  }

  lemma PlaceMeans(net: Net, jobs: seq<Job>, perExpert: seq<seq<nat>>, active: seq<nat>, ids: seq<nat>, ws: seq<Factor>, j: nat, p: nat)
    requires |ids| == |ws| && Lists(net, perExpert, active, ids, ws) && Chunked(jobs, perExpert, active)
    requires j < |jobs| && jobs[j].eid < |perExpert| && jobs[j].ab <= p < jobs[j].ae && p < |perExpert[jobs[j].eid]|
    ensures PlaceOk(net, jobs, perExpert, ids, ws, j, p) && perExpert[jobs[j].eid][p] < |ids| && jobs[j].eid < net.E
  {
    assert OwnList(net, perExpert[jobs[j].eid], ids, ws, jobs[j].eid);
  }

  lemma PlaceOfValid(net: Net, jobs: seq<Job>, perExpert: seq<seq<nat>>, ids: seq<nat>, ws: seq<Factor>, j: nat, p: nat, ai: nat)
    requires |ids| == |ws| && At(jobs, perExpert, j, p, ai) && Valid(net, ids, ws, ai) && ids[ai] == jobs[j].eid
    ensures PlaceOk(net, jobs, perExpert, ids, ws, j, p)
  {
  }

  lemma ActKept(net: Net, act0: seq<seq<Num>>, act: seq<seq<Num>>, input: seq<XRow>, ids: seq<nat>, k: nat, ai: nat)
    requires Sized(net) && 0 < k && ai < |ids| && ai < |act0| && ids[ai] < net.E && ai / k < |input|
    requires act == act0[ai := ActRow(net, input[ai / k], ids[ai])]
    ensures ActIs(net, act, input, ids, k, ai)
    ensures forall b: nat :: ActIs(net, act0, input, ids, k, b) ==> ActIs(net, act, input, ids, k, b)
  {
    hide ActRow;
  }
}
