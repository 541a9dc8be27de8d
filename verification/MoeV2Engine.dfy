/** MOE_V2 as an object: its weights are held once or sharded over the NUMA nodes, and its per-expert buffers
    live on from call to call. */
module MoeV2Engine {
  import FlatPool
  import opened MoeV2
  import opened MoeV2Sliced
  import ShardPool
  import ShardPoolProgress
  import ShardPoolRuns
  import ShardedWorkPools
  import opened Tables

  ghost predicate Covers(n: nat, NS: nat, parts: nat, i: nat, o: (nat, nat)) {
    parts > 0 && o.0 < Nodes(NS) && o.1 < parts && Span(n, NS, parts, o.0, o.1).0 <= i < Span(n, NS, parts, o.0, o.1).1
  }

  /** A job that covers row i. */
  ghost function Owner(n: nat, NS: nat, parts: nat, i: nat): (o: (nat, nat))
    requires parts > 0 && i < n
    ensures Covers(n, NS, parts, i, o)
  {
    HasOwner(n, NS, parts, i);
    var o :| Covers(n, NS, parts, i, o);
    o
  }

  lemma HasOwner(n: nat, NS: nat, parts: nat, i: nat)
    requires parts > 0 && i < n
    ensures exists o :: Covers(n, NS, parts, i, o)
  {
    var node, s := SpanFind(n, NS, parts, i);
    assert Covers(n, NS, parts, i, (node, s));
  }

  /** The job of row i for the x-th active expert. */
  ghost function JobOf(n: nat, NS: nat, parts: nat, x: nat, i: nat): (nat, nat)
    requires parts > 0 && i < n
  {
    var o := Owner(n, NS, parts, i);
    (o.0, Flat(x, o.1, parts))
  }

  /** Every (node, job) pair of a phase. */
  function Jobs(NS: nat, total: nat): set<(nat, nat)> {
    set n: nat, j: nat | n < Nodes(NS) && j < total :: (n, j)
  }

  /** `ran` has every job of a phase once and no other. */
  ghost predicate EachJob(ran: multiset<(nat, nat)>, NS: nat, total: nat) {
    forall n: nat, j: nat :: ran[(n, j)] == if (n, j) in Jobs(NS, total) then 1 else 0
  }

  /** How the jobs of the phases were handed to the workers.  `NotSafe` and `Lost` only arise with shards: the
      call `jobs` was not opened because that was not safe, or it was opened in state `at` and never returned. */
  datatype Outcome = Done | NotSafe(jobs: seq<nat>) | Lost(at: ShardPool.Shards, jobs: seq<nat>)

  /** A phase only fails for a reason that can be read off the pool, which has been left in state s. */
  ghost predicate Justified(o: Outcome, s: ShardPool.Shards) {
    match o
    case Done => ShardPool.Between(s)
    case NotSafe(jobs) => ShardPool.Between(s) && (ShardPool.Total(jobs) >= FlatPool.WORD || !ShardPool.SafeToOpen(s, jobs))
    case Lost(at, jobs) =>
      && ShardPool.Between(at) && ShardPool.SafeToOpen(at, jobs) && ShardPoolProgress.SomeUnattended(at, jobs)
      && ShardPoolRuns.During(at, jobs, s) && ShardPool.Stuck(s)
  }

  /** `jobs` are the counts of a phase over this many experts, `parts` jobs for each on every node. */
  ghost predicate OfPhase(o: Outcome, NS: nat, experts: nat) {
    o.Done? || exists parts: nat :: parts > 0 && o.jobs == JobCounts(NS, Area(experts, parts))
  }

  /** job_counts of a sharded phase. */
  function JobCounts(NS: nat, total: nat): seq<nat> {
    seq(NS, _ => total)
  }

  lemma CountsAreJobs(ran: multiset<(nat, nat)>, NS: nat, total: nat)
    requires NS >= 2 && ShardedWorkPools.RunsEach(ran, JobCounts(NS, total))
    ensures EachJob(ran, NS, total)
  {
    forall n: nat, j: nat ensures ran[(n, j)] == if (n, j) in Jobs(NS, total) then 1 else 0 {
      assert ShardPool.IsJob(JobCounts(NS, total), n, j) <==> (n, j) in Jobs(NS, total);
    }
  }

  lemma JobOnce(ran: multiset<(nat, nat)>, NS: nat, total: nat, job: (nat, nat))
    requires EachJob(ran, NS, total) && ran[job] > 0
    ensures job in Jobs(NS, total) && ran[job] == 1
  {
    assert job == (job.0, job.1);
  }

  function Tokens(n: nat): (s: set<nat>)
    ensures forall t: nat :: t in s <==> t < n
  {
    if n == 0 then {} else Tokens(n - 1) + {n - 1}
  }

  lemma JobListed(ran: multiset<(nat, nat)>, n: nat, NS: nat, parts: nat, x: nat, i: nat, experts: nat)
    requires parts > 0 && i < n && x < experts && EachJob(ran, NS, Area(experts, parts))
    ensures JobOf(n, NS, parts, x, i) in ran
  {
    FlatBound(x, Owner(n, NS, parts, i).1, parts, experts);
    var job := JobOf(n, NS, parts, x, i);
    assert ran[(job.0, job.1)] == 1;
  }

  /** If row i of active expert x belongs to job (node, j), the job decodes to x and to a span with i in it. */
  lemma JobDecodes(n: nat, NS: nat, parts: nat, x: nat, i: nat, node: nat, j: nat)
    requires parts > 0 && i < n && JobOf(n, NS, parts, x, i) == (node, j)
    ensures j / parts == x && Span(n, NS, parts, node, j % parts).0 <= i < Span(n, NS, parts, node, j % parts).1
  {
    FlatInverse(x, Owner(n, NS, parts, i).1, parts);
  }

  // ----- Columns of the active experts' buffers.

  ghost predicate Shaped(net: Net, exp: seq<ExpBuf>, active: seq<nat>) {
    forall x :: 0 <= x < |active| ==> active[x] < net.E && active[x] < |exp| && Shape(net, exp[active[x]])
  }

  /** Jobs change neither who is gathered nor what was gathered. */
  ghost predicate SameInputs(exp: seq<ExpBuf>, exp0: seq<ExpBuf>) {
    |exp| == |exp0| && forall e :: 0 <= e < |exp| ==> exp[e].aiList == exp0[e].aiList && exp[e].xg == exp0[e].xg
  }

  ghost predicate HidDone(net: Net, exp: seq<ExpBuf>, active: seq<nat>, x: nat, i: nat)
    requires Sized(net)
  {
    x < |active| && active[x] < net.E && active[x] < |exp| && i < net.I && HidOk(net, exp[active[x]], active[x], i)
  }

  ghost predicate DownDone(net: Net, exp: seq<ExpBuf>, active: seq<nat>, x: nat, h: nat)
    requires Sized(net)
  {
    x < |active| && active[x] < net.E && active[x] < |exp| && h < net.H && DownOk(net, exp[active[x]], active[x], h)
  }

  class MOE_V2 {
    const net: Net                      // sizes, kernels, and the weights as they were handed over
    const nshard: nat
    const w13: seq<WRow>                // the single copy (or a socket's replica of it)
    const w2: seq<WRow>
    const w13Shard: seq<seq<WRow>>
    const w2Shard: seq<seq<WRow>>
    const pool: ShardedWorkPools.ShardedWorkPool
    const present: set<nat>             // node_present_
    var exp: seq<ExpBuf>
    var active: seq<nat>
    var instIdx: seq<nat>

    /** The pool is between two calls. */
    ghost predicate PoolIdle()
      reads pool
    {
      ShardPool.Between(pool.S())
    }

    ghost predicate Stored() {
      if nshard >= 2 then
        |w13Shard| == nshard && |w2Shard| == nshard && forall n :: 0 <= n < nshard ==> ShardOk(n)
      else w13 == net.w13 && w2 == net.w2
    }

    ghost predicate ShardOk(n: nat)
      requires nshard >= 2 && n < |w13Shard| && n < |w2Shard|
    {
      && ShardAgrees(w13Shard[n], net.w13, net.E, 2 * net.I, Bound(net.I, nshard, n), Bound(net.I, nshard, n + 1))
      && ShardAgrees(w13Shard[n], net.w13, net.E, 2 * net.I, net.I + Bound(net.I, nshard, n), net.I + Bound(net.I, nshard, n + 1))
      && ShardAgrees(w2Shard[n], net.w2, net.E, net.H, Bound(net.H, nshard, n), Bound(net.H, nshard, n + 1))
    }

    /** Weights are sharded when there are at least two nodes and both row counts divide evenly, unless
        sharding is switched off or a region cannot be mapped. */
    constructor (net: Net, nodes: nat, shardable: bool, garbage: WRow, pool: ShardedWorkPools.ShardedWorkPool, present: set<nat>)
      requires Sized(net)
      ensures Stored() && this.net == net && this.pool == pool && this.present == present
    {
      hide ShardAgrees, Bound;
      this.net, this.pool, this.present := net, pool, present;
      var ns := if nodes >= 2 && net.I % nodes == 0 && net.H % nodes == 0 && shardable then nodes else 0;
      var s13, s2 := [], [];
      for n := 0 to ns
        invariant |s13| == |s2| == n
        invariant forall l :: 0 <= l < n ==>
          ShardAgrees(s13[l], net.w13, net.E, 2 * net.I, Bound(net.I, ns, l), Bound(net.I, ns, l + 1))
        invariant forall l :: 0 <= l < n ==>
          ShardAgrees(s13[l], net.w13, net.E, 2 * net.I, net.I + Bound(net.I, ns, l), net.I + Bound(net.I, ns, l + 1))
        invariant forall l :: 0 <= l < n ==> ShardAgrees(s2[l], net.w2, net.E, net.H, Bound(net.H, ns, l), Bound(net.H, ns, l + 1))
      {
        var a := ShardFillW13(net.w13, net.E, net.I, ns, n, garbage);
        var b := ShardFillW2(net.w2, net.E, net.H, ns, n, garbage);
        s13, s2 := s13 + [a], s2 + [b];
      }
      nshard, w13Shard, w2Shard, w13, w2 := ns, s13, s2, net.w13, net.w2;
      exp, active, instIdx := [], [], [];
    }

    /** The tensor that a worker of node n reads. */
    function JobW13(n: nat): seq<WRow>
      requires nshard >= 2 ==> n < |w13Shard|
    {
      if nshard >= 2 then w13Shard[n] else w13
    }

    function JobW2(n: nat): seq<WRow>
      requires nshard >= 2 ==> n < |w2Shard|
    {
      if nshard >= 2 then w2Shard[n] else w2
    }

    /** Whatever rows a gate/up job reads, its weight tensor has them at their full-layout place. */
    lemma JobReadsW13(parts: nat, n: nat, s: nat, e: nat, i: nat)
      requires Sized(net) && Stored() && parts > 0 && n < Nodes(nshard) && s < parts && e < net.E
      requires Span(net.I, nshard, parts, n, s).0 <= i < Span(net.I, nshard, parts, n, s).1
      ensures HasGateUp(net, JobW13(n), e, i)
    {
      SpanInside(net.I, nshard, parts, n, s);
      FlatBound(e, i, 2 * net.I, net.E);
      FlatBound(e, net.I + i, 2 * net.I, net.E);
      hide Flat, Bound, Span, Area;
      if nshard >= 2 {
        assert ShardOk(n);
        BoundMonotone(net.I, nshard, n);
      }
    }

    lemma JobReadsW2(parts: nat, n: nat, s: nat, e: nat, h: nat)
      requires Sized(net) && Stored() && parts > 0 && n < Nodes(nshard) && s < parts && e < net.E
      requires Span(net.H, nshard, parts, n, s).0 <= h < Span(net.H, nshard, parts, n, s).1
      ensures HasDown(net, JobW2(n), e, h)
    {
      SpanInside(net.H, nshard, parts, n, s);
      FlatBound(e, h, net.H, net.E);
      hide Flat, Bound, Span, Area;
      if nshard >= 2 {
        assert ShardOk(n);
      }
    }

    /** Handing a phase's jobs to the workers: `total` jobs on every node through the sharded pool, whose
        workers may have gone on since the last call; without shards one flat list of jobs. */
    method Dispatch(total: nat) returns (outcome: Outcome, ran: multiset<(nat, nat)>)
      requires PoolIdle()
      modifies pool
      ensures Justified(outcome, pool.S()) && (nshard < 2 ==> outcome.Done?)
      ensures !outcome.Done? ==> outcome.jobs == JobCounts(nshard, total)
      ensures outcome.Done? ==> EachJob(ran, nshard, total)
    {
      hide ShardPool.Inv, ShardPool.SafeToOpen, ShardPoolProgress.SomeUnattended, ShardPool.Stuck, ShardPoolRuns.During,
        ShardedWorkPools.RunsEach;
      if nshard < 2 {
        return Done, multiset(Jobs(nshard, total));
      }
      pool.WorkersSettle();
      var jobs := JobCounts(nshard, total);
      if ShardPool.Total(jobs) >= FlatPool.WORD || !ShardPool.SafeToOpen(pool.S(), jobs) {
        return NotSafe(jobs), multiset{};
      }
      outcome := Lost(pool.S(), jobs);
      var returned;
      returned, ran := pool.ParallelForSharded(jobs, present);
      if returned {
        outcome := Done;
        CountsAreJobs(ran, nshard, total);
      }
    }

    /** Phase A: all gate/up jobs, in any order. */
    method PhaseA(parts: nat, ran: multiset<(nat, nat)>)
      requires Sized(net) && Stored() && Shaped(net, exp, active) && parts > 0 && EachJob(ran, nshard, Area(|active|, parts))
      modifies this`exp
      ensures Shaped(net, exp, active) && SameInputs(exp, old(exp))
      ensures forall x: nat, i: nat :: x < |active| && i < net.I ==> HidDone(net, exp, active, x, i)
    {
      hide Stored, Shaped, HidDone, JobOf, Jobs, Area, Sized;
      var todo := ran;
      forall x: nat, i: nat | x < |active| && i < net.I ensures JobOf(net.I, nshard, parts, x, i) in todo {
        JobListed(ran, net.I, nshard, parts, x, i, |active|);
      }
      while todo != multiset{}
        invariant Shaped(net, exp, active) && SameInputs(exp, old(exp)) && todo <= ran
        invariant forall x: nat, i: nat :: x < |active| && i < net.I && JobOf(net.I, nshard, parts, x, i) !in todo
                                           ==> HidDone(net, exp, active, x, i)
      {
        var job :| job in todo;
        JobOnce(ran, nshard, Area(|active|, parts), job);
        GateUpJob(parts, job.0, job.1);
        todo := todo - multiset{job};
      }
      forall x: nat, i: nat | x < |active| && i < net.I ensures HidDone(net, exp, active, x, i) {
        assert JobOf(net.I, nshard, parts, x, i) !in todo;
      }
    }

    /** One gate/up job of node n. */
    method GateUpJob(parts: nat, n: nat, j: nat)
      requires Sized(net) && Stored() && Shaped(net, exp, active) && parts > 0 && (n, j) in Jobs(nshard, Area(|active|, parts))
      modifies this`exp
      ensures Shaped(net, exp, active) && SameInputs(exp, old(exp))
      ensures forall x: nat, i: nat :: old(HidDone(net, exp, active, x, i)) ==> HidDone(net, exp, active, x, i)
      ensures forall x: nat, i: nat :: x < |active| && i < net.I && JobOf(net.I, nshard, parts, x, i) == (n, j)
                                       ==> HidDone(net, exp, active, x, i)
    {
      hide Shape, HidOk, Span, JobOf, HasGateUp, Area, Sized, ShardOk;
      Unflat(j, parts, |active|);
      var eIdx, s := j / parts, j % parts;
      var eid := active[eIdx];
      SpanInside(net.I, nshard, parts, n, s);
      var (n0, n1) := Span(net.I, nshard, parts, n, s);
      if n0 < n1 {
        var w := JobW13(n);
        forall i: nat | n0 <= i < n1 ensures HasGateUp(net, w, eid, i) {
          JobReadsW13(parts, n, s, eid, i);
        }
        var g := GateUpSlice(net, exp[eid], eid, w, n0, n1);
        exp := exp[eid := g];
      }
      forall x: nat, i: nat | x < |active| && i < net.I && JobOf(net.I, nshard, parts, x, i) == (n, j)
        ensures HidDone(net, exp, active, x, i)
      {
        JobDecodes(net.I, nshard, parts, x, i, n, j);
      }
    }

    /** Phase B: all down jobs, in any order. */
    method PhaseB(parts: nat, ran: multiset<(nat, nat)>)
      requires Sized(net) && Stored() && Shaped(net, exp, active) && parts > 0 && EachJob(ran, nshard, Area(|active|, parts))
      requires forall x: nat, i: nat :: x < |active| && i < net.I ==> HidDone(net, exp, active, x, i)
      modifies this`exp
      ensures Shaped(net, exp, active) && SameInputs(exp, old(exp))
      ensures forall x: nat, h: nat :: x < |active| && h < net.H ==> DownDone(net, exp, active, x, h)
    {
      hide Stored, Shaped, HidDone, DownDone, JobOf, Jobs, Area, Sized;
      var todo := ran;
      forall x: nat, h: nat | x < |active| && h < net.H ensures JobOf(net.H, nshard, parts, x, h) in todo {
        JobListed(ran, net.H, nshard, parts, x, h, |active|);
      }
      while todo != multiset{}
        invariant Shaped(net, exp, active) && SameInputs(exp, old(exp)) && todo <= ran
        invariant forall x: nat, i: nat :: x < |active| && i < net.I ==> HidDone(net, exp, active, x, i)
        invariant forall x: nat, h: nat :: x < |active| && h < net.H && JobOf(net.H, nshard, parts, x, h) !in todo
                                           ==> DownDone(net, exp, active, x, h)
      {
        var job :| job in todo;
        JobOnce(ran, nshard, Area(|active|, parts), job);
        DownJob(parts, job.0, job.1);
        todo := todo - multiset{job};
      }
      forall x: nat, h: nat | x < |active| && h < net.H ensures DownDone(net, exp, active, x, h) {
        assert JobOf(net.H, nshard, parts, x, h) !in todo;
      }
    }

    /** One down job of node n. */
    method DownJob(parts: nat, n: nat, j: nat)
      requires Sized(net) && Stored() && Shaped(net, exp, active) && parts > 0 && (n, j) in Jobs(nshard, Area(|active|, parts))
      requires forall x: nat, i: nat :: x < |active| && i < net.I ==> HidDone(net, exp, active, x, i)
      modifies this`exp
      ensures Shaped(net, exp, active) && SameInputs(exp, old(exp))
      ensures forall x: nat, i: nat :: x < |active| && i < net.I ==> HidDone(net, exp, active, x, i)
      ensures forall x: nat, h: nat :: old(DownDone(net, exp, active, x, h)) ==> DownDone(net, exp, active, x, h)
      ensures forall x: nat, h: nat :: x < |active| && h < net.H && JobOf(net.H, nshard, parts, x, h) == (n, j)
                                       ==> DownDone(net, exp, active, x, h)
    {
      hide Shape, HidOk, DownOk, Span, JobOf, HasDown, Area, Sized, ShardOk;
      Unflat(j, parts, |active|);
      var eIdx, s := j / parts, j % parts;
      var eid := active[eIdx];
      SpanInside(net.H, nshard, parts, n, s);
      var (n0, n1) := Span(net.H, nshard, parts, n, s);
      if n0 < n1 {
        var w := JobW2(n);
        forall h: nat | n0 <= h < n1 ensures HasDown(net, w, eid, h) {
          JobReadsW2(parts, n, s, eid, h);
        }
        forall i: nat | i < net.I ensures HidOk(net, exp[eid], eid, i) { assert HidDone(net, exp, active, eIdx, i); }
        var g := DownSlice(net, exp[eid], eid, w, n0, n1);
        HidFrame(net, exp[eid], g, eid);
        ghost var before := exp;
        exp := exp[eid := g];
        forall x: nat, i: nat | x < |active| && i < net.I ensures HidDone(net, exp, active, x, i) {
          assert HidDone(net, before, active, x, i);
        }
      }
      forall x: nat, h: nat | x < |active| && h < net.H && JobOf(net.H, nshard, parts, x, h) == (n, j)
        ensures DownDone(net, exp, active, x, h)
      {
        JobDecodes(net.H, nshard, parts, x, h, n, j);
      }
    }

    /** Expert grouping: each valid assignment is listed once with its expert; lists of experts that are not
        active keep whatever an earlier call left in them. */
    method Group(ids: seq<nat>, ws: seq<Factor>)
      requires |ids| == |ws|
      modifies this`exp, this`active, this`instIdx
      ensures Grouped(net, exp, active, instIdx, ids, ws)
    {
      var x: XRow := *;
      exp := Resize(exp, net.E, ExpBuf([], [], [], [], []));
      active := [];
      instIdx := seq(|ids|, _ => 0);
      var count := CountValid(net, ids, ws);
      for e := 0 to net.E
        invariant |exp| == net.E && |instIdx| == |ids|
        invariant forall d :: 0 <= d < e && count[d] > 0 ==> d in active && exp[d].aiList == []
        invariant forall d :: d in active ==> d < e && count[d] > 0
      {
        if count[e] > 0 {
          exp := exp[e := exp[e].(aiList := [])];
          active := active + [e];
        }
      }
      assert forall ai: nat :: Valid(net, ids, ws, ai) ==> count[ids[ai]] > 0 && ids[ai] in active;
      for ai := 0 to |ids|
        modifies `exp, `instIdx
        invariant |exp| == net.E && |instIdx| == |ids|
        invariant forall l: nat :: l < ai && Valid(net, ids, ws, l) ==> Listed(exp, instIdx, ids, l)
        invariant forall e :: e in active ==> e < net.E && OnlyOwn(net, exp[e], ids, ws, e)
      {
        var eid := ids[ai];
        if Valid(net, ids, ws, ai) {
          ListPush(net, exp, instIdx, active, ids, ws, ai);
          instIdx := instIdx[ai := |exp[eid].aiList|];
          exp := exp[eid := exp[eid].(aiList := exp[eid].aiList + [ai])];
        }
      }
    }

    /** Gathers every active expert's input rows and sizes its buffers; resizing keeps stale cells. */
    method Gather(k: nat, input: seq<XRow>, ids: seq<nat>, ws: seq<Factor>)
      requires |ids| == |ws| == Area(|input|, k) && 0 < k && Grouped(net, exp, active, instIdx, ids, ws)
      modifies this`exp
      ensures Grouped(net, exp, active, instIdx, ids, ws) && Shaped(net, exp, active)
      ensures forall e :: e in active ==> e < |exp| && RowsGathered(exp[e], input, k)
    {
      hide Shape, Valid, OnlyOwn, RowsGathered, Area;
      for x := 0 to |active|
        modifies `exp
        invariant Grouped(net, exp, active, instIdx, ids, ws)
        invariant forall y :: 0 <= y < x ==> GatheredAt(net, exp, active[y], input, k)
      {
        var e := active[x];
        assert e in active;
        OwnInside(net, exp[e], ids, ws, e);
        ghost var before := exp;
        var g := GatherRows(net, exp[e], input, k);
        exp := exp[e := g];
        SameLists(net, before, exp, active, instIdx, ids, ws);
      }
    }

    /** Phase C for one token: the weighted sum of its ranks, added up in place. */
    method ReduceToken(k: nat, input: seq<XRow>, ids: seq<nat>, ws: seq<Factor>, output: array<Num>, t: nat)
      requires Sized(net) && |exp| == net.E && 0 < k && |ids| == |ws| == Area(|input|, k) && t < |input| && Area(|input|, net.H) <= output.Length
      requires Staged(net, exp, instIdx, ids, ws, input, k) && RowIs(net, output[..], input[t], ids, ws, Area(t, k), t, 0, 0)
      modifies output
      ensures RowIs(net, output[..], input[t], ids, ws, Area(t, k), t, k, 0)
      ensures OtherRows(net, output[..], old(output[..]), t)
    {
      hide Sized, RowIs, Staged, OtherRows, Area, Flat;
      AreaLe(t + 1, |input|, k);
      AreaAdd(t, 1, k);
      OtherRowsSame(net, output[..], t);
      for r := 0 to k
        invariant RowIs(net, output[..], input[t], ids, ws, Area(t, k), t, r, 0) && OtherRows(net, output[..], old(output[..]), t)
      {
        var ai := Area(t, k) + r;
        if !Valid(net, ids, ws, ai) {
          RowSkip(net, output[..], input[t], ids, ws, Area(t, k), t, r);
        } else {
          var d := exp[ids[ai]].down;
          for h := 0 to net.H
            invariant RowIs(net, output[..], input[t], ids, ws, Area(t, k), t, r, h) && OtherRows(net, output[..], old(output[..]), t)
          {
            StagedCell(net, exp, instIdx, ids, ws, input, k, t, r, h);
            FlatBound(t, h, net.H, |input|);
            RowStep(net, output[..], old(output[..]), input[t], ids, ws, Area(t, k), t, r, h, d[Flat(instIdx[ai], h, net.H)]);
            ghost var before := output[..];
            output[Flat(t, h, net.H)] := net.ops.mulAdd(output[Flat(t, h, net.H)], ws[ai], d[Flat(instIdx[ai], h, net.H)]);
            assert output[..] == before[Flat(t, h, net.H) := output[Flat(t, h, net.H)]];
          }
          RowNext(net, output[..], input[t], ids, ws, Area(t, k), t, r);
        }
      }
    }

    /** Phase C: all tokens, in any order. */
    method PhaseC(k: nat, input: seq<XRow>, ids: seq<nat>, ws: seq<Factor>, output: array<Num>)
      requires Sized(net) && |exp| == net.E && 0 < k && |ids| == |ws| == Area(|input|, k) && Area(|input|, net.H) <= output.Length
      requires Staged(net, exp, instIdx, ids, ws, input, k)
      requires forall t: nat :: t < |input| ==> TokenIs(net, output[..], input, ids, ws, k, t, 0)
      modifies output
      ensures forall t: nat :: t < |input| ==> TokenIs(net, output[..], input, ids, ws, k, t, k)
      ensures forall q: nat :: q < output.Length && Area(|input|, net.H) <= q ==> output[q] == old(output[q])
    {
      hide Sized, TokenIs, Staged, Area, OtherRows;
      var todo := Tokens(|input|);
      while todo != {}
        invariant forall t :: t in todo ==> t < |input|
        invariant forall t: nat :: t < |input| && t in todo ==> TokenIs(net, output[..], input, ids, ws, k, t, 0)
        invariant forall t: nat :: t < |input| && t !in todo ==> TokenIs(net, output[..], input, ids, ws, k, t, k)
        invariant forall q: nat :: q < output.Length && Area(|input|, net.H) <= q ==> output[q] == old(output[q])
      {
        var t :| t in todo;
        ghost var before := output[..];
        TokenRow(net, before, input, ids, ws, k, t);
        ReduceToken(k, input, ids, ws, output, t);
        todo := todo - {t};
        TokenRow(net, output[..], input, ids, ws, k, t);
        BeyondRow(net, before, output[..], t, |input|);
        forall u: nat | u < |input| && u in todo ensures TokenIs(net, output[..], input, ids, ws, k, u, 0) {
          TokenKept(net, before, output[..], input, ids, ws, k, t, u, 0);
        }
        forall u: nat | u < |input| && u !in todo ensures TokenIs(net, output[..], input, ids, ws, k, u, k) {
          if u != t { TokenKept(net, before, output[..], input, ids, ws, k, t, u, k); }
        }
      }
    }

    /** forward_many_nsliced, for any chunk counts: each token gets the rank-ordered sum over its valid
        assignments, whatever earlier calls left in the buffers.  With shards this needs both sharded calls to be
        opened when that is safe and every node with jobs to be attended; the outcome says which of the two was
        missing, and where. */
    method ForwardMany(k: nat, ids: seq<nat>, ws: seq<Factor>, input: seq<XRow>, output: array<Num>) returns (outcome: Outcome)
      requires Sized(net) && Stored() && PoolIdle() && |ids| == |ws| == Area(|input|, k) && Area(|input|, net.H) <= output.Length
      modifies this`exp, this`active, this`instIdx, pool, output
      ensures Justified(outcome, pool.S()) && OfPhase(outcome, nshard, |active|) && (nshard < 2 ==> outcome.Done?)
      ensures if |input| == 0 || k == 0 || net.I == 0 || net.H == 0 then output[..] == old(output[..])
              else outcome.Done? ==> forall t: nat :: t < |input| ==> TokenIs(net, output[..], input, ids, ws, k, t, k)
      ensures forall q: nat :: q < output.Length && Area(|input|, net.H) <= q ==> output[q] == old(output[q])
    {
      hide Sized, Stored, Justified, TokenIs, Staged, Area, Grouped, Shaped, HidDone, DownDone, RowsGathered, EachJob;
      JustDone(pool.S());
      outcome := Done;
      if |input| == 0 || k == 0 || net.I == 0 || net.H == 0 {
        return;
      }
      ZeroOutput(net, output, |input|);
      ZeroTokens(net, output[..], input, ids, ws, k);
      Group(ids, ws);
      if active == [] {
        NoneActive(net, exp, active, instIdx, ids, ws);
        AllInvalid(net, output[..], input, ids, ws, k);
        return;
      }
      Gather(k, input, ids, ws);
      // nc_gu and nc_d, or subA and subB: at least 1, from the environment and the thread count.
      var partsA: nat :| partsA >= 1;
      var partsB: nat :| partsB >= 1;
      ghost var gathered := exp;
      var ran;
      outcome, ran := Dispatch(Area(|active|, partsA));
      if !outcome.Done? { return; }
      PhaseA(partsA, ran);
      JustDone(pool.S());
      outcome, ran := Dispatch(Area(|active|, partsB));
      if !outcome.Done? { return; }
      PhaseB(partsB, ran);
      AllStaged(net, gathered, exp, active, instIdx, input, ids, ws, k);
      PhaseC(k, input, ids, ws, output);
    }
  }

  lemma JustDone(s: ShardPool.Shards)
    ensures Justified(Done, s) <==> ShardPool.Between(s)
  {
  }

  // ----- From the phases to the output.

  /** Output row t is the token's sum over its first n ranks. */
  ghost predicate TokenIs(net: Net, out: seq<Num>, input: seq<XRow>, ids: seq<nat>, ws: seq<Factor>, k: nat, t: nat, n: nat)
    requires Sized(net) && |ids| == |ws| == Area(|input|, k) && t < |input| && n <= k
  {
    AreaLe(t + 1, |input|, k);
    AreaAdd(t, 1, k);
    forall h: nat :: h < net.H ==> Holds(out, t, h, net.H, TokenCell(net, input[t], ids, ws, Area(t, k), n, h))
  }

  lemma TokenRow(net: Net, out: seq<Num>, input: seq<XRow>, ids: seq<nat>, ws: seq<Factor>, k: nat, t: nat)
    requires Sized(net) && |ids| == |ws| == Area(|input|, k) && t < |input|
    ensures TokenIs(net, out, input, ids, ws, k, t, 0) ==> RowIs(net, out, input[t], ids, ws, Area(t, k), t, 0, 0)
    ensures RowIs(net, out, input[t], ids, ws, Area(t, k), t, k, 0) ==> TokenIs(net, out, input, ids, ws, k, t, k)
  {
    AreaLe(t + 1, |input|, k);
    AreaAdd(t, 1, k);
    hide Area, TokenCell, Holds;
    if RowIs(net, out, input[t], ids, ws, Area(t, k), t, k, 0) {
      forall h: nat | h < net.H ensures Holds(out, t, h, net.H, TokenCell(net, input[t], ids, ws, Area(t, k), k, h)) {
        assert CellIs(net, out, input[t], ids, ws, Area(t, k), t, k, 0, h);
      }
    }
  }

  lemma BeyondRow(net: Net, out0: seq<Num>, out: seq<Num>, t: nat, tokens: nat)
    requires OtherRows(net, out, out0, t) && t < tokens
    ensures |out| == |out0| && forall q: nat :: q < |out| && Area(tokens, net.H) <= q ==> out[q] == out0[q]
  {
    AreaLe(t + 1, tokens, net.H);
    AreaAdd(t, 1, net.H);
    hide Area;
  }

  lemma TokenKept(net: Net, out0: seq<Num>, out: seq<Num>, input: seq<XRow>, ids: seq<nat>, ws: seq<Factor>, k: nat, t: nat, u: nat, n: nat)
    requires Sized(net) && |ids| == |ws| == Area(|input|, k) && t < |input| && u < |input| && t != u && n <= k
    requires OtherRows(net, out, out0, t) && TokenIs(net, out0, input, ids, ws, k, u, n)
    ensures TokenIs(net, out, input, ids, ws, k, u, n)
  {
    AreaLe(t + 1, u, net.H);
    AreaLe(u + 1, t, net.H);
    AreaAdd(t, 1, net.H);
    AreaAdd(u, 1, net.H);
    AreaLe(u + 1, |input|, k);
    AreaAdd(u, 1, k);
    forall h: nat | h < net.H ensures Flat(u, h, net.H) == Area(u, net.H) + h { }
    hide Area, TokenCell, Flat;
    forall h: nat | h < net.H ensures Holds(out, u, h, net.H, TokenCell(net, input[u], ids, ws, Area(u, k), n, h)) {
      assert Holds(out0, u, h, net.H, TokenCell(net, input[u], ids, ws, Area(u, k), n, h));
    }
  }

  /** std::fill of the output. */
  method ZeroOutput(net: Net, output: array<Num>, tokens: nat)
    requires Area(tokens, net.H) <= output.Length
    modifies output
    ensures forall q: nat :: q < output.Length ==> output[q] == if q < Area(tokens, net.H) then net.ops.zero else old(output[q])
  {
    hide Area;
    for q := 0 to Area(tokens, net.H)
      invariant forall p: nat :: p < output.Length ==> output[p] == if p < q then net.ops.zero else old(output[p])
    {
      output[q] := net.ops.zero;
    }
  }

  lemma ZeroTokens(net: Net, out: seq<Num>, input: seq<XRow>, ids: seq<nat>, ws: seq<Factor>, k: nat)
    requires Sized(net) && |ids| == |ws| == Area(|input|, k) && Area(|input|, net.H) <= |out|
    requires forall q: nat :: q < Area(|input|, net.H) ==> out[q] == net.ops.zero
    ensures forall t: nat :: t < |input| ==> TokenIs(net, out, input, ids, ws, k, t, 0)
  {
    hide Area, Flat;
    forall t: nat | t < |input| ensures TokenIs(net, out, input, ids, ws, k, t, 0) {
      AreaLe(t + 1, |input|, k);
      AreaAdd(t, 1, k);
      forall h: nat | h < net.H ensures Holds(out, t, h, net.H, TokenCell(net, input[t], ids, ws, Area(t, k), 0, h)) {
        FlatBound(t, h, net.H, |input|);
      }
    }
  }

  /** Without a valid assignment every token's sum is zero. */
  lemma AllInvalid(net: Net, out: seq<Num>, input: seq<XRow>, ids: seq<nat>, ws: seq<Factor>, k: nat)
    requires Sized(net) && |ids| == |ws| == Area(|input|, k) && forall ai: nat :: !Valid(net, ids, ws, ai)
    requires forall t: nat :: t < |input| ==> TokenIs(net, out, input, ids, ws, k, t, 0)
    ensures forall t: nat :: t < |input| ==> TokenIs(net, out, input, ids, ws, k, t, k)
  {
    hide Area, Holds;
    forall t: nat | t < |input| ensures TokenIs(net, out, input, ids, ws, k, t, k) {
      AreaLe(t + 1, |input|, k);
      AreaAdd(t, 1, k);
      assert TokenIs(net, out, input, ids, ws, k, t, 0);
      forall h: nat | h < net.H ensures Holds(out, t, h, net.H, TokenCell(net, input[t], ids, ws, Area(t, k), k, h)) {
        NothingAdded(net, input[t], ids, ws, Area(t, k), k, h);
      }
    }
  }

  lemma NoneActive(net: Net, exp: seq<ExpBuf>, active: seq<nat>, instIdx: seq<nat>, ids: seq<nat>, ws: seq<Factor>)
    requires |ids| == |ws| && Grouped(net, exp, active, instIdx, ids, ws) && active == []
    ensures forall ai: nat :: !Valid(net, ids, ws, ai)
  {
    hide Valid;
  }

  lemma {:induction false} NothingAdded(net: Net, x: XRow, ids: seq<nat>, ws: seq<Factor>, first: nat, n: nat, h: nat)
    requires Sized(net) && |ids| == |ws| && first + n <= |ids| && h < net.H && forall ai: nat :: !Valid(net, ids, ws, ai)
    ensures TokenCell(net, x, ids, ws, first, n, h) == TokenCell(net, x, ids, ws, first, 0, h)
  {
    if n > 0 { NothingAdded(net, x, ids, ws, first, n - 1, h); }
  }

  /** After phases A and B every valid assignment's output is staged, and nothing stale is read. */
  lemma AllStaged(net: Net, exp0: seq<ExpBuf>, exp: seq<ExpBuf>, active: seq<nat>, instIdx: seq<nat>, input: seq<XRow>, ids: seq<nat>,
                  ws: seq<Factor>, k: nat)
    requires Sized(net) && 0 < k && |ids| == |ws| == Area(|input|, k) && Grouped(net, exp0, active, instIdx, ids, ws)
    requires forall e :: e in active ==> e < |exp0| && RowsGathered(exp0[e], input, k)
    requires SameInputs(exp, exp0) && forall x: nat, h: nat :: x < |active| && h < net.H ==> DownDone(net, exp, active, x, h)
    ensures |exp| == net.E && Staged(net, exp, instIdx, ids, ws, input, k)
  {
    hide Area, OutCell, Valid;
    forall ai: nat, h: nat | Valid(net, ids, ws, ai) && h < net.H ensures StagedAt(net, exp, instIdx, ids, input, k, ai, h) {
      assert ids[ai] in active && Listed(exp0, instIdx, ids, ai);
      var x :| 0 <= x < |active| && active[x] == ids[ai];
      assert DownDone(net, exp, active, x, h) && RowsGathered(exp0[ids[ai]], input, k);
      assert Holds(exp[ids[ai]].down, instIdx[ai], h, net.H, OutCell(net, exp[ids[ai]].xg[instIdx[ai]], ids[ai], h));
    }
  }

  lemma HidFrame(net: Net, g: ExpBuf, r: ExpBuf, e: nat)
    requires Sized(net) && e < net.E && r.aiList == g.aiList && r.xg == g.xg && r.abf16 == g.abf16
    ensures forall i: nat :: i < net.I && HidOk(net, g, e, i) ==> HidOk(net, r, e, i)
  {
    hide HidCell, Holds, Sized;
  }

  // ----- Grouping.

  ghost predicate Listed(exp: seq<ExpBuf>, instIdx: seq<nat>, ids: seq<nat>, ai: nat) {
    && ai < |ids| && ids[ai] < |exp| && ai < |instIdx|
    && instIdx[ai] < |exp[ids[ai]].aiList| && exp[ids[ai]].aiList[instIdx[ai]] == ai
  }

  /** Everything on expert e's list is a valid assignment to e. */
  ghost predicate OnlyOwn(net: Net, g: ExpBuf, ids: seq<nat>, ws: seq<Factor>, e: nat)
    requires |ids| == |ws|
  {
    forall m :: 0 <= m < |g.aiList| ==> Valid(net, ids, ws, g.aiList[m]) && ids[g.aiList[m]] == e
  }

  ghost predicate Grouped(net: Net, exp: seq<ExpBuf>, active: seq<nat>, instIdx: seq<nat>, ids: seq<nat>, ws: seq<Factor>)
    requires |ids| == |ws|
  {
    && |exp| == net.E && |instIdx| == |ids|
    && (forall ai: nat :: Valid(net, ids, ws, ai) ==> ids[ai] in active && Listed(exp, instIdx, ids, ai))
    && (forall e :: e in active ==> e < net.E && OnlyOwn(net, exp[e], ids, ws, e))
  }

  method CountValid(net: Net, ids: seq<nat>, ws: seq<Factor>) returns (count: seq<nat>)
    requires |ids| == |ws|
    ensures |count| == net.E
    ensures forall ai: nat :: Valid(net, ids, ws, ai) ==> count[ids[ai]] > 0
  {
    count := seq(net.E, _ => 0);
    for ai := 0 to |ids|
      invariant |count| == net.E
      invariant forall l: nat :: l < ai && Valid(net, ids, ws, l) ==> count[ids[l]] > 0
    {
      if Valid(net, ids, ws, ai) {
        count := count[ids[ai] := count[ids[ai]] + 1];
      }
    }
  }

  lemma ListPush(net: Net, exp: seq<ExpBuf>, instIdx: seq<nat>, active: seq<nat>, ids: seq<nat>, ws: seq<Factor>, ai: nat)
    requires |ids| == |ws| == |instIdx| && |exp| == net.E && Valid(net, ids, ws, ai)
    requires forall l: nat :: l < ai && Valid(net, ids, ws, l) ==> Listed(exp, instIdx, ids, l)
    requires forall e :: e in active ==> e < net.E && OnlyOwn(net, exp[e], ids, ws, e)
    ensures var eid := ids[ai];
      var exp' := exp[eid := exp[eid].(aiList := exp[eid].aiList + [ai])];
      && (forall l: nat :: l < ai + 1 && Valid(net, ids, ws, l) ==> Listed(exp', instIdx[ai := |exp[eid].aiList|], ids, l))
      && (forall e :: e in active ==> OnlyOwn(net, exp'[e], ids, ws, e))
  {
    var eid := ids[ai];
    var exp' := exp[eid := exp[eid].(aiList := exp[eid].aiList + [ai])];
    hide Valid;
    forall l: nat | l < ai && Valid(net, ids, ws, l) ensures Listed(exp', instIdx[ai := |exp[eid].aiList|], ids, l) {
      assert Listed(exp, instIdx, ids, l);
    }
    forall e | e in active ensures OnlyOwn(net, exp'[e], ids, ws, e) {
      assert OnlyOwn(net, exp[e], ids, ws, e);
    }
  }

  // ----- Gathering.

  ghost predicate RowsGathered(g: ExpBuf, input: seq<XRow>, k: nat) {
    && 0 < k && |g.xg| == |g.aiList|
    && forall m :: 0 <= m < |g.aiList| ==> g.aiList[m] / k < |input| && g.xg[m] == input[g.aiList[m] / k]
  }

  ghost predicate GatheredAt(net: Net, exp: seq<ExpBuf>, e: nat, input: seq<XRow>, k: nat) {
    e < |exp| && e < net.E && Shape(net, exp[e]) && RowsGathered(exp[e], input, k)
  }

  lemma OwnInside(net: Net, g: ExpBuf, ids: seq<nat>, ws: seq<Factor>, e: nat)
    requires |ids| == |ws| && OnlyOwn(net, g, ids, ws, e)
    ensures forall m :: 0 <= m < |g.aiList| ==> g.aiList[m] < |ids|
  {
  }

  lemma SameLists(net: Net, exp: seq<ExpBuf>, exp': seq<ExpBuf>, active: seq<nat>, instIdx: seq<nat>, ids: seq<nat>, ws: seq<Factor>)
    requires |ids| == |ws| && Grouped(net, exp, active, instIdx, ids, ws) && |exp'| == |exp|
    requires forall e :: 0 <= e < |exp| ==> exp'[e].aiList == exp[e].aiList
    ensures Grouped(net, exp', active, instIdx, ids, ws)
  {
    hide Valid;
    forall e | e in active ensures OnlyOwn(net, exp'[e], ids, ws, e) { assert OnlyOwn(net, exp[e], ids, ws, e); }
    forall ai: nat | Valid(net, ids, ws, ai) ensures Listed(exp', instIdx, ids, ai) { assert Listed(exp, instIdx, ids, ai); }
  }

  method GatherRows(net: Net, g: ExpBuf, input: seq<XRow>, k: nat) returns (r: ExpBuf)
    requires 0 < k && forall m :: 0 <= m < |g.aiList| ==> g.aiList[m] < Area(|input|, k)
    ensures r.aiList == g.aiList && Shape(net, r) && RowsGathered(r, input, k)
  {
    hide Area;
    var x: XRow, n: Num, h: Half := *, *, *;
    var me := |g.aiList|;
    var xg := Resize(g.xg, me, x);
    for m := 0 to me
      invariant |xg| == me && forall l :: 0 <= l < m ==> g.aiList[l] / k < |input| && xg[l] == input[g.aiList[l] / k]
    {
      Unflat(g.aiList[m], k, |input|);
      xg := xg[m := input[g.aiList[m] / k]];
    }
    r := ExpBuf(g.aiList, xg, Resize(g.both, Area(me, 2 * net.I), n), Resize(g.abf16, Area(me, net.I), h),
                Resize(g.down, Area(me, net.H), n));
  }

  // ----- The reduction.

  /** Each valid assignment's expert output lies in the row of the expert's buffer that its index names. */
  ghost predicate Staged(net: Net, exp: seq<ExpBuf>, instIdx: seq<nat>, ids: seq<nat>, ws: seq<Factor>, input: seq<XRow>, k: nat)
    requires Sized(net) && 0 < k && |ids| == |ws| == Area(|input|, k)
  {
    forall ai: nat, h: nat :: Valid(net, ids, ws, ai) && h < net.H ==> StagedAt(net, exp, instIdx, ids, input, k, ai, h)
  }

  ghost predicate StagedAt(net: Net, exp: seq<ExpBuf>, instIdx: seq<nat>, ids: seq<nat>, input: seq<XRow>, k: nat, ai: nat, h: nat)
    requires Sized(net) && 0 < k
  {
    && ai < |ids| && ids[ai] < |exp| && ids[ai] < net.E && ai < |instIdx| && ai / k < |input| && h < net.H
    && Holds(exp[ids[ai]].down, instIdx[ai], h, net.H, OutCell(net, input[ai / k], ids[ai], h))
  }

  lemma StagedCell(net: Net, exp: seq<ExpBuf>, instIdx: seq<nat>, ids: seq<nat>, ws: seq<Factor>, input: seq<XRow>, k: nat,
                   t: nat, r: nat, h: nat)
    requires Sized(net) && 0 < k && |ids| == |ws| == Area(|input|, k) && Staged(net, exp, instIdx, ids, ws, input, k)
    requires t < |input| && r < k && h < net.H && Valid(net, ids, ws, Area(t, k) + r)
    ensures var ai := Area(t, k) + r;
      && ai < |ids| && ids[ai] < |exp| && ids[ai] < net.E && ai < |instIdx|
      && Flat(instIdx[ai], h, net.H) < |exp[ids[ai]].down|
      && exp[ids[ai]].down[Flat(instIdx[ai], h, net.H)] == OutCell(net, input[t], ids[ai], h)
  {
    FlatInverse(t, r, k);
    assert Area(t, k) + r == Flat(t, r, k);
    assert StagedAt(net, exp, instIdx, ids, input, k, Area(t, k) + r, h);
    hide Flat, Area, OutCell;
  }

  /** Output row t holds the sum over the first r ranks, and over one more for the cells below hh. */
  ghost predicate RowIs(net: Net, out: seq<Num>, x: XRow, ids: seq<nat>, ws: seq<Factor>, first: nat, t: nat, r: nat, hh: nat)
    requires Sized(net) && |ids| == |ws|
  {
    && first + r + (if hh > 0 then 1 else 0) <= |ids|
    && forall h: nat :: h < net.H ==> CellIs(net, out, x, ids, ws, first, t, r, hh, h)
  }

  ghost predicate CellIs(net: Net, out: seq<Num>, x: XRow, ids: seq<nat>, ws: seq<Factor>, first: nat, t: nat, r: nat, hh: nat, h: nat)
    requires Sized(net) && |ids| == |ws| && h < net.H && first + r + (if hh > 0 then 1 else 0) <= |ids|
  {
    Holds(out, t, h, net.H, TokenCell(net, x, ids, ws, first, if h < hh then r + 1 else r, h))
  }

  ghost predicate OtherRows(net: Net, out: seq<Num>, out0: seq<Num>, t: nat) {
    |out| == |out0| && forall q: nat :: q < |out| && !(Area(t, net.H) <= q < Area(t, net.H) + net.H) ==> out[q] == out0[q]
  }

  lemma OtherRowsSame(net: Net, out: seq<Num>, t: nat)
    ensures OtherRows(net, out, out, t)
  {
  }

  lemma RowSkip(net: Net, out: seq<Num>, x: XRow, ids: seq<nat>, ws: seq<Factor>, first: nat, t: nat, r: nat)
    requires Sized(net) && |ids| == |ws| && RowIs(net, out, x, ids, ws, first, t, r, 0) && first + r < |ids|
    requires !Valid(net, ids, ws, first + r)
    ensures RowIs(net, out, x, ids, ws, first, t, r + 1, 0)
  {
    hide Flat, OutCell, Valid;
    var r1 := r + 1;
    forall h: nat | h < net.H ensures CellIs(net, out, x, ids, ws, first, t, r1, 0, h) {
      assert CellIs(net, out, x, ids, ws, first, t, r, 0, h);
    }
  }

  lemma RowNext(net: Net, out: seq<Num>, x: XRow, ids: seq<nat>, ws: seq<Factor>, first: nat, t: nat, r: nat)
    requires Sized(net) && |ids| == |ws| && RowIs(net, out, x, ids, ws, first, t, r, net.H) && first + r < |ids|
    ensures RowIs(net, out, x, ids, ws, first, t, r + 1, 0)
  {
    hide Flat, OutCell, Valid, TokenCell;
    var r1 := r + 1;
    forall h: nat | h < net.H ensures CellIs(net, out, x, ids, ws, first, t, r1, 0, h) {
      assert CellIs(net, out, x, ids, ws, first, t, r, net.H, h);
    }
  }

  lemma RowStep(net: Net, out: seq<Num>, out0: seq<Num>, x: XRow, ids: seq<nat>, ws: seq<Factor>, first: nat, t: nat, r: nat, h: nat, d: Num)
    requires Sized(net) && |ids| == |ws| && RowIs(net, out, x, ids, ws, first, t, r, h) && OtherRows(net, out, out0, t)
    requires h < net.H && Valid(net, ids, ws, first + r) && d == OutCell(net, x, ids[first + r], h) && Flat(t, h, net.H) < |out|
    ensures var out' := out[Flat(t, h, net.H) := net.ops.mulAdd(out[Flat(t, h, net.H)], ws[first + r], d)];
      RowIs(net, out', x, ids, ws, first, t, r, h + 1) && OtherRows(net, out', out0, t)
  {
    hide OutCell;
    var out' := out[Flat(t, h, net.H) := net.ops.mulAdd(out[Flat(t, h, net.H)], ws[first + r], d)];
    assert CellIs(net, out, x, ids, ws, first, t, r, h, h);
    var h1 := h + 1;
    forall g: nat | g < net.H ensures CellIs(net, out', x, ids, ws, first, t, r, h1, g) {
      assert CellIs(net, out, x, ids, ws, first, t, r, h, g);
    }
  }
}
