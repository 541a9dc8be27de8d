/** Backend_NUMA as an object: threads' status, curr and end are updated in place, and a job runs
    under an arbitrary scheduler. */
module BackendNumas {
  import opened WorkStealing
  import opened WorkStealingRuns
  import opened StaticPartition

  // ----- The partition tiles every node's interval of task ids.

  predicate Inside(r: Range, id: int) {
    r.begin <= id < r.end
  }

  lemma {:induction false} Locate(counts: seq<nat>, v: nat, upTo: nat) returns (n: nat, j: nat)
    requires upTo <= |counts| && v < First(counts, upTo)
    ensures n < upTo && j < counts[n] && v == First(counts, n) + j
  {
    if v >= First(counts, upTo - 1) {
      n, j := upTo - 1, v - First(counts, upTo - 1);
    } else {
      n, j := Locate(counts, v, upTo - 1);
    }
  }

  lemma SliceInsideNode(counts: seq<nat>, k: nat, nth: nat, n: nat, j: nat)
    requires n < |counts| && j < counts[n]
    ensures var r := Slice(counts[n], |counts|, k, nth, n, j);
      NodeStart(|counts|, k, nth, n) <= r.begin <= r.end <= NodeStart(|counts|, k, nth, n + 1)
  {
    var tasks := NodeTasks(|counts|, k, nth, n);
    NodeStartStep(|counts|, k, nth, n);
    SplitEnds(tasks, counts[n]);
    SplitMonotone(tasks, counts[n], 0, j);
    SplitMonotone(tasks, counts[n], j, j + 1);
    SplitMonotone(tasks, counts[n], j + 1, counts[n]);
  }

  lemma SomeSliceHolds(counts: seq<nat>, k: nat, nth: nat, n: nat, id: int) returns (j: nat)
    requires n < |counts| && counts[n] > 0
    requires NodeStart(|counts|, k, nth, n) <= id < NodeStart(|counts|, k, nth, n + 1)
    ensures j < counts[n] && Inside(Slice(counts[n], |counts|, k, nth, n, j), id)
  {
    NodeStartStep(|counts|, k, nth, n);
    SplitEnds(NodeTasks(|counts|, k, nth, n), counts[n]);
    j := SplitFind(NodeTasks(|counts|, k, nth, n), counts[n], id - NodeStart(|counts|, k, nth, n), counts[n]);
  }

  /** Thread ids run node by node. */
  ghost predicate NodesMatch(threads: seq<Thread>, counts: seq<nat>) {
    && |counts| > 0 && |threads| == First(counts, |counts|)
    && (forall v, n :: 0 <= v < |threads| && 0 <= n < |counts| && First(counts, n) <= v < First(counts, n) + counts[n]
                       ==> threads[v].node == n)
  }

  /** Some thread of node nd owns task id. */
  ghost predicate NodeOwns(threads: seq<Thread>, ranges: seq<Range>, nd: nat, id: int) {
    exists v :: 0 <= v < |threads| && v < |ranges| && threads[v].node == nd && Inside(ranges[v], id)
  }

  lemma OwnedIsInside(threads: seq<Thread>, counts: seq<nat>, ranges: seq<Range>, k: nat, nth: nat, v: nat, id: int)
    requires NodesMatch(threads, counts) && |ranges| == |threads| && v < |threads| && Inside(ranges[v], id)
    requires SlicesUpTo(ranges, counts, k, nth, |counts|)
    ensures threads[v].node < |counts|
    ensures NodeStart(|counts|, k, nth, threads[v].node) <= id < NodeStart(|counts|, k, nth, threads[v].node + 1)
  {
    var n, j := Locate(counts, v, |counts|);
    assert HasSlice(ranges, counts, k, nth, n, j) && threads[v].node == n;
    hide NodeStart, Slice;
    SliceInsideNode(counts, k, nth, n, j);
  }

  lemma ThreadExists(threads: seq<Thread>, counts: seq<nat>, nd: nat, j: nat)
    requires NodesMatch(threads, counts) && nd < |counts| && j < counts[nd]
    ensures First(counts, nd) + j < |threads| && threads[First(counts, nd) + j].node == nd
  {
    FirstMonotone(counts, nd + 1, |counts|);
  }

  lemma InsideIsOwned(threads: seq<Thread>, counts: seq<nat>, ranges: seq<Range>, k: nat, nth: nat, nd: nat, id: int)
    requires NodesMatch(threads, counts) && 0 !in counts && |ranges| == |threads| && nd < |counts|
    requires SlicesUpTo(ranges, counts, k, nth, |counts|)
    requires NodeStart(|counts|, k, nth, nd) <= id < NodeStart(|counts|, k, nth, nd + 1)
    ensures NodeOwns(threads, ranges, nd, id)
  {
    hide NodeStart, Slice, NodesMatch, First;
    assert counts[nd] in counts;
    var j := SomeSliceHolds(counts, k, nth, nd, id);
    assert HasSlice(ranges, counts, k, nth, nd, j);
    ThreadExists(threads, counts, nd, j);
    var v := First(counts, nd) + j;
    assert threads[v].node == nd && Inside(ranges[v], id);
  }

  /** The threads of node nd own exactly the task ids of the node's interval. */
  lemma NodeOwnsItsInterval(threads: seq<Thread>, counts: seq<nat>, ranges: seq<Range>, k: nat, nth: nat, nd: nat, id: int)
    requires NodesMatch(threads, counts) && 0 !in counts && |ranges| == |threads|
    requires SlicesUpTo(ranges, counts, k, nth, |counts|)
    ensures NodeOwns(threads, ranges, nd, id) <==>
      (nd < |counts| && NodeStart(|counts|, k, nth, nd) <= id < NodeStart(|counts|, k, nth, nd + 1))
  {
    hide NodeStart, NodesMatch, SlicesUpTo;
    if NodeOwns(threads, ranges, nd, id) {
      var v :| 0 <= v < |threads| && threads[v].node == nd && Inside(ranges[v], id);
      OwnedIsInside(threads, counts, ranges, k, nth, v, id);
    }
    if nd < |counts| && NodeStart(|counts|, k, nth, nd) <= id < NodeStart(|counts|, k, nth, nd + 1) {
      InsideIsOwned(threads, counts, ranges, k, nth, nd, id);
    }
  }

  // ----- A running job, seen from outside.

  /** Task id has been computed on behalf of a thread of node nd. */
  ghost predicate Done(s: State, nd: nat, id: int) {
    exists v :: 0 <= v < |s.threads| && v < |s.ranges| && s.threads[v].node == nd && Inside(s.ranges[v], id) && s.log[(s.job, v, id)] > 0
  }

  /** `ran` lists what has run, as (node of the executing thread, task id). */
  ghost predicate Tally(s: State, ran: multiset<(nat, int)>) {
    forall nd: nat, id: int :: ran[(nd, id)] == if Done(s, nd, id) then 1 else 0
  }

  function RanBy(s: State, a: Act): multiset<(nat, int)>
    requires a.Work? && a.t < |s.threads|
  {
    if s.threads[a.t].pos.Compute? then multiset{(s.threads[a.t].node, s.threads[a.t].pos.id)} else multiset{}
  }

  lemma SameNodes(s: State, a: Act)
    requires Enabled(s, a)
    ensures |Step(s, a).threads| == |s.threads|
    ensures forall v :: 0 <= v < |s.threads| ==> Step(s, a).threads[v].node == s.threads[v].node
    ensures !a.Begin? ==> Step(s, a).ranges == s.ranges && Step(s, a).job == s.job
    ensures !a.Begin? && !(a.Work? && s.threads[a.t].pos.Compute?) ==> Step(s, a).log == s.log
  {
  }

  lemma QuietTally(s: State, a: Act, ran: multiset<(nat, int)>)
    requires Tally(s, ran) && Enabled(s, a) && !a.Begin? && (a.Work? ==> !s.threads[a.t].pos.Compute?)
    ensures Tally(Step(s, a), ran)
  {
    SameNodes(s, a);
    hide Enabled, Step;
    forall nd: nat, id: int ensures ran[(nd, id)] == if Done(Step(s, a), nd, id) then 1 else 0 {
      assert ran[(nd, id)] == if Done(s, nd, id) then 1 else 0;
    }
  }

  lemma ComputeTally(s: State, t: nat, ran: multiset<(nat, int)>)
    requires Inv(s) && Tally(s, ran) && Enabled(s, Work(t)) && s.threads[t].pos.Compute?
    ensures Tally(Step(s, Work(t)), ran + RanBy(s, Work(t)))
  {
    var s', x := Step(s, Work(t)), s.threads[t].pos;
    ComputeInv(s, t);
    SameNodes(s, Work(t));
    hide Inv;
    assert s'.log == s.log + multiset{(s.job, x.v, x.id)};
    assert Disjoint(s.ranges) && |s.ranges| == |s.threads|;
    hide Enabled, Step;
    var ran' := ran + RanBy(s, Work(t));
    forall nd: nat, id: int ensures ran'[(nd, id)] == if Done(s', nd, id) then 1 else 0 {
      assert ran[(nd, id)] == if Done(s, nd, id) then 1 else 0;
      if (nd, id) == (s.threads[t].node, x.id) {
        assert Inside(s.ranges[x.v], id);
        NotDoneYet(s, x.v, nd, id);
      }
    }
  }

  lemma NotDoneYet(s: State, v: nat, nd: nat, id: int)
    requires v < |s.ranges| && Disjoint(s.ranges) && Inside(s.ranges[v], id) && s.log[(s.job, v, id)] == 0
    ensures !Done(s, nd, id)
  {
    forall u | 0 <= u < |s.threads| && u < |s.ranges| && Inside(s.ranges[u], id) ensures u == v { }
  }

  /** The node of every thread of the first n nodes, in thread order. */
  function NodeIds(counts: seq<nat>, n: nat): seq<nat>
    requires n <= |counts|
  {
    if n == 0 then [] else NodeIds(counts, n - 1) + seq(counts[n - 1], _ => n - 1)
  }

  lemma {:induction false} NodeIdAt(counts: seq<nat>, n: nat, v: nat, m: nat)
    requires n <= |counts| && m < n && First(counts, m) <= v < First(counts, m) + counts[m]
    ensures v < |NodeIds(counts, n)| == First(counts, n) && NodeIds(counts, n)[v] == m
  {
    NodeIdsLength(counts, n - 1);
    if m < n - 1 { NodeIdAt(counts, n - 1, v, m); }
  }

  lemma {:induction false} NodeIdsLength(counts: seq<nat>, n: nat)
    requires n <= |counts|
    ensures |NodeIds(counts, n)| == First(counts, n)
  {
    if n > 0 { NodeIdsLength(counts, n - 1); }
  }

  lemma NodeIdsMatch(counts: seq<nat>, n: nat)
    requires n <= |counts|
    ensures |NodeIds(counts, n)| == First(counts, n)
    ensures forall v, m :: 0 <= v < First(counts, n) && 0 <= m < |counts| && First(counts, m) <= v < First(counts, m) + counts[m]
                           ==> NodeIds(counts, n)[v] == m
  {
    NodeIdsLength(counts, n);
    forall v, m | 0 <= v < First(counts, n) && 0 <= m < |counts| && First(counts, m) <= v < First(counts, m) + counts[m]
      ensures NodeIds(counts, n)[v] == m
    {
      if m >= n { FirstMonotone(counts, n, m); }
      NodeIdAt(counts, n, v, m);
    }
  }

  class BackendNuma {
    const counts: seq<nat>    // threads per node, numbered node by node
    var threads: seq<Thread>  // thread_state_, with each worker's program position
    // The job in flight, and the history variables of WorkStealing.State.
    var job: nat
    var ranges: seq<Range>
    var todo: seq<nat>
    var caller: Caller
    var live: set<nat>
    var log: multiset<(nat, nat, int)>

    function S(): State
      reads this
    {
      State(threads, job, ranges, todo, caller, live, log)
    }

    ghost predicate Valid()
      reads this
    {
      Reachable(S()) && NodesMatch(threads, counts)
    }

    constructor (counts: seq<nat>)
      requires counts != []
      ensures Valid() && this.counts == counts && caller.Idle?
    {
      this.counts := counts;
      var nodes := NodeIds(counts, |counts|);
      NodeIdsMatch(counts, |counts|);
      threads := seq(|nodes|, t requires 0 <= t < |nodes| => Thread(nodes[t], WAITING, 0, 0, Poll));
      job, todo, caller, live, log := 0, [], Idle, {}, multiset{};
      ranges := seq(|nodes|, _ => Range(0, 0));
      new;
      assert Feasible(Init(nodes), []) && After(Init(nodes), []) == Init(nodes);
    }

    /** One turn of worker t in worker_thread / process_tasks. */
    method WorkerTurn(t: nat)
      requires Enabled(S(), Work(t))
      modifies this
      ensures S() == Step(old(S()), Work(t))
    {
      var me := threads[t];
      match me.pos {
        case Poll => threads := threads[t := me.(pos := Check)];
        case Check => threads := threads[t := me.(pos := if me.status.WORKING? then Draw(t) else Scan(0))];
        case Draw(v) =>
          var id := threads[v].curr;
          threads := threads[v := threads[v].(curr := id + 1)];
          threads := threads[t := threads[t].(pos := Drew(v, id))];
        case Drew(v, id) =>
          if id < threads[v].end {
            threads := threads[t := me.(pos := Compute(v, id))];
          } else {
            threads := threads[t := me.(pos := if v == t then Scan(0) else Scan(v + 1))];
          }
        case Compute(v, id) =>
          log := log + multiset{(job, v, id)};
          threads := threads[t := me.(pos := if v == t then Check else Draw(v))];
        case Scan(i) =>
          if i >= |threads| {
            threads := threads[t := me.(pos := Finish)];
          } else if i != t && threads[i].node == me.node && threads[i].status.WORKING? {
            threads := threads[t := me.(pos := Draw(i))];
          } else {
            threads := threads[t := me.(pos := Scan(i + 1))];
          }
        case Finish => threads := threads[t := me.(pos := Poll, status := WAITING)];
      }
    }

    /** The next statement of the dispatcher: a store into todo[0]'s fields, or one poll of the barrier. */
    method CallerTurn()
      requires Enabled(S(), Advance)
      modifies this
      ensures S() == Step(old(S()), Advance)
    {
      match caller {
        case SetCurr =>
          if todo == [] {
            caller := Await(0);
          } else if ranges[todo[0]].begin >= ranges[todo[0]].end {
            threads := threads[todo[0] := threads[todo[0]].(status := WAITING, end := -1, curr := 0)];
            todo := todo[1..];
          } else {
            threads := threads[todo[0] := threads[todo[0]].(curr := ranges[todo[0]].begin)];
            caller := SetEnd;
          }
        case SetEnd =>
          threads := threads[todo[0] := threads[todo[0]].(end := ranges[todo[0]].end)];
          caller := SetStatus;
        case SetStatus =>
          threads := threads[todo[0] := threads[todo[0]].(status := WORKING)];
          live := live + {todo[0]};
          todo, caller := todo[1..], SetCurr;
        case Await(i) => caller := if i < |threads| then Await(i + 1) else Idle;
      }
    }

    /** One action of anybody who can move, chosen arbitrarily; `ran` is the task it computed, if it computed one. */
    method AnyTurn() returns (ran: seq<(nat, int)>, ghost a: Act)
      requires Inv(S()) && !caller.Idle?
      modifies this
      ensures !a.Begin? && old(Enabled(S(), a)) && S() == Step(old(S()), a)
      ensures RanByAct(old(S()), a, ran)
    {
      NeverStuck(S());
      hide Inv;
      var movable := set t: nat | t < |threads| && Runnable(S(), t);
      assert forall t :: Enabled(S(), Work(t)) <==> t in movable;
      var callerFirst: bool := *;
      ran := [];
      if CallerReady(S()) && (callerFirst || movable == {}) {
        a := Advance;
        CallerTurn();
      } else {
        var t :| t in movable;
        a := Work(t);
        var pos := threads[t].pos;
        if pos.Compute? {
          ran := [(threads[t].node, pos.id)];
        }
        WorkerTurn(t);
      }
    }

    /** do_k_work_stealing_job(k, nth) under any scheduler.  It throws exactly when some node has no thread.
        Otherwise it comes to an end, and each task id of [0, k * nth) has run exactly once, on the node
        whose interval of task ids holds it; `ran` lists them in the order they started. */
    method DoKWorkStealingJob(k: nat, nth: nat) returns (ok: bool, ran: seq<(nat, int)>)
      requires Valid() && caller.Idle?
      modifies this
      ensures !ok <==> 0 in counts
      ensures ok ==> Valid() && caller.Idle?
      ensures ok ==> RanOnce(ran, |counts|, k, nth)
    {
      ran := [];
      var r := PartitionJob(counts, k, nth);
      if r.NodeWithoutThreads? {
        return false, ran;
      }
      ghost var s0 := S();
      job, ranges, todo, live, caller := job + 1, r.ranges, r.order, {}, SetCurr;
      assert S() == Step(s0, Begin(r.ranges, r.order)) && |threads| == |r.ranges|;
      hide Reachable, Inv, TallyOf, RanBy, RanByAct, RanOnce, NodesMatch, SlicesUpTo, Disjoint, Covers, Enabled, Step, CallerMeasure, FuelOf;
      OpenJob(s0, r.ranges, r.order);
      while !caller.Idle?
        invariant Reachable(S()) && TallyOf(S(), ran) && NodesMatch(threads, counts)
        invariant ranges == r.ranges && |threads| == |ranges|
        decreases CallerMeasure(S()), FuelOf(S())
      {
        ghost var s := S();
        ReachableInv(s);
        var one, a := AnyTurn();
        ReachOne(s, a);
        JobProgress(s, a);
        JobTally(s, a, ran, one);
        KeepsNodes(s, a, counts);
        ran := ran + one;
      }
      AllDone(S(), counts, k, nth, ran);
      ok := true;
    }
  }

  // ----- What DoKWorkStealingJob's loop keeps.

  /** Task id lies in node nd's interval of a job of k rounds over nth blocks. */
  predicate OnNode(nodes: nat, k: nat, nth: nat, nd: nat, id: int) {
    nd < nodes && NodeStart(nodes, k, nth, nd) <= id < NodeStart(nodes, k, nth, nd + 1)
  }

  /** Every task of the job ran exactly once, on its node, and nothing else ran. */
  ghost predicate RanOnce(ran: seq<(nat, int)>, nodes: nat, k: nat, nth: nat) {
    forall nd: nat, id: int :: multiset(ran)[(nd, id)] == if OnNode(nodes, k, nth, nd, id) then 1 else 0
  }

  ghost predicate TallyOf(s: State, ran: seq<(nat, int)>) {
    Tally(s, multiset(ran))
  }

  ghost predicate RanByAct(s: State, a: Act, one: seq<(nat, int)>)
    requires Enabled(s, a)
  {
    multiset(one) == if a.Work? then RanBy(s, a) else multiset{}
  }

  function FuelOf(s: State): int {
    if |s.threads| == |s.ranges| then Fuel(s, |s.threads|) else 0
  }

  lemma OpenJob(s: State, ranges: seq<Range>, order: seq<nat>)
    requires Reachable(s) && Enabled(s, Begin(ranges, order))
    ensures Reachable(Step(s, Begin(ranges, order))) && TallyOf(Step(s, Begin(ranges, order)), [])
  {
    var s' := Step(s, Begin(ranges, order));
    ReachableInv(s);
    ReachOne(s, Begin(ranges, order));
    hide Reachable;
    forall nd: nat, id: int ensures !Done(s', nd, id) {
      assert forall v: nat :: s'.log[(s'.job, v, id)] == 0;
    }
  }

  lemma JobProgress(s: State, a: Act)
    requires Reachable(s) && Enabled(s, a) && !a.Begin?
    ensures if a.Advance? then CallerMeasure(Step(s, a)) < CallerMeasure(s)
            else CallerMeasure(Step(s, a)) == CallerMeasure(s) && FuelOf(Step(s, a)) < FuelOf(s) && 0 <= FuelOf(s)
  {
    ReachableInv(s);
    if a.Advance? {
      CallerStepDecreases(s);
    } else {
      FuelNat(s, |s.threads|);
      ThreadStepDecreases(s, a.t);
      hide Inv, Fuel;
    }
  }

  lemma JobTally(s: State, a: Act, ran: seq<(nat, int)>, one: seq<(nat, int)>)
    requires Reachable(s) && Enabled(s, a) && !a.Begin? && TallyOf(s, ran) && RanByAct(s, a, one)
    ensures TallyOf(Step(s, a), ran + one)
  {
    ReachableInv(s);
    hide Reachable, Tally, Inv;
    assert multiset(ran + one) == multiset(ran) + multiset(one);
    if a.Work? && s.threads[a.t].pos.Compute? {
      ComputeTally(s, a.t, multiset(ran));
    } else {
      QuietTally(s, a, multiset(ran));
    }
  }

  lemma KeepsNodes(s: State, a: Act, counts: seq<nat>)
    requires Enabled(s, a) && !a.Begin? && NodesMatch(s.threads, counts)
    ensures NodesMatch(Step(s, a).threads, counts) && Step(s, a).ranges == s.ranges && |Step(s, a).threads| == |s.threads|
  {
    SameNodes(s, a);
    hide Step, Enabled;
  }

  lemma AllDone(s: State, counts: seq<nat>, k: nat, nth: nat, ran: seq<(nat, int)>)
    requires Reachable(s) && s.caller.Idle? && TallyOf(s, ran) && |s.threads| == |s.ranges|
    requires NodesMatch(s.threads, counts) && 0 !in counts && SlicesUpTo(s.ranges, counts, k, nth, |counts|)
    ensures RanOnce(ran, |counts|, k, nth)
  {
    hide NodesMatch, SlicesUpTo, Reachable, NodeStart;
    forall nd: nat, id: int ensures multiset(ran)[(nd, id)] == if OnNode(|counts|, k, nth, nd, id) then 1 else 0 {
      NodeOwnsItsInterval(s.threads, counts, s.ranges, k, nth, nd, id);
      assert multiset(ran)[(nd, id)] == if Done(s, nd, id) then 1 else 0;
      DoneIsOwned(s, nd, id);
    }
  }

  lemma DoneIsOwned(s: State, nd: nat, id: int)
    requires Reachable(s) && s.caller.Idle?
    ensures Done(s, nd, id) <==> NodeOwns(s.threads, s.ranges, nd, id)
  {
    hide Reachable;
    forall v: nat | v < |s.threads| && v < |s.ranges| && Inside(s.ranges[v], id) ensures s.log[(s.job, v, id)] > 0 {
      ExactlyOnceOnReturn(s, v, id);
    }
  }

  // ----- RanOnce, said of the task ids alone.

  lemma IdToBlock(k: nat, lo: nat, hi: nat, id: int)
    requires k > 0 && id >= 0
    ensures lo * k <= id < hi * k <==> lo <= id / k < hi
  {
    var q := id / k;
    MulLess(lo, q, k);
    MulLess(q, lo, k);
    MulLess(q, hi, k);
    MulLess(hi, q, k);
  }

  lemma MulLess(a: int, b: int, k: nat)
    ensures a <= b ==> a * k <= b * k
    ensures a < b ==> a * k + k <= b * k
  {
    if a < b { assert (a + 1) * k <= b * k; }
  }

  lemma OnNodeMeans(nodes: nat, k: nat, nth: nat, nd: nat, id: int)
    requires nodes > 0
    ensures OnNode(nodes, k, nth, nd, id) ==> 0 <= id < k * nth
    ensures OnNode(nodes, k, nth, nd, id) <==> k > 0 && id >= 0 && nd < nodes && Split(nth, nodes, nd) <= id / k < Split(nth, nodes, nd + 1)
  {
    if nd < nodes {
      SplitEnds(nth, nodes);
      SplitMonotone(nth, nodes, nd + 1, nodes);
      hide Split;
      if k > 0 && id >= 0 { IdToBlock(k, Split(nth, nodes, nd), Split(nth, nodes, nd + 1), id); }
      MulLess(Split(nth, nodes, nd + 1), nth, k);
    }
  }

  /** A task id of the job runs exactly once, on one node, the one whose share of the blocks its round falls
      into; no other id runs.  Node nd's share starts after nd * (nth / nodes) blocks and one more for each
      earlier node that got one of the remaining nth % nodes. */
  lemma EveryTaskOnce(ran: seq<(nat, int)>, nodes: nat, k: nat, nth: nat, id: int) returns (nd: nat)
    requires nodes > 0 && RanOnce(ran, nodes, k, nth)
    ensures !(0 <= id < k * nth) ==> forall n: nat :: multiset(ran)[(n, id)] == 0
    ensures 0 <= id < k * nth ==> nd < nodes && k > 0 && forall n: nat :: multiset(ran)[(n, id)] == if n == nd then 1 else 0
    ensures 0 <= id < k * nth ==> nd * (nth / nodes) + (if nd < nth % nodes then nd else nth % nodes) <= id / k
    ensures 0 <= id < k * nth ==> id / k < (nd + 1) * (nth / nodes) + (if nd + 1 < nth % nodes then nd + 1 else nth % nodes)
  {
    nd := 0;
    if 0 <= id < k * nth {
      IdToBlock(k, 0, nth, id);
      SplitEnds(nth, nodes);
      nd := SplitFind(nth, nodes, id / k, nodes);
    }
    hide Split;
    forall n: nat ensures multiset(ran)[(n, id)] == if 0 <= id < k * nth && n == nd then 1 else 0 {
      OnNodeMeans(nodes, k, nth, n, id);
      if OnNode(nodes, k, nth, n, id) { SplitUnique(nth, nodes, id / k, n, nd); }
    }
  }
}
