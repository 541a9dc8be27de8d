/** What the work-stealing job protocol guarantees over whole runs. */
module WorkStealingRuns {
  import opened WorkStealing

  ghost predicate Feasible(s: State, acts: seq<Act>)
    decreases |acts|
  {
    acts == [] || (Enabled(s, acts[0]) && Feasible(Step(s, acts[0]), acts[1..]))
  }

  ghost function After(s: State, acts: seq<Act>): State
    requires Feasible(s, acts)
    decreases |acts|
  {
    if acts == [] then s else After(Step(s, acts[0]), acts[1..])
  }

  ghost predicate Reachable(s: State) {
    exists nodes, acts :: Feasible(Init(nodes), acts) && After(Init(nodes), acts) == s
  }

  // ----- How far a counter can run past its range.

  /** Thread t has used up its one fetch_add past `end` on thread v. */
  predicate Over(x: Thread, t: nat, isLive: bool, v: nat, end: int) {
    || (x.pos.Drew? && x.pos.v == v && x.pos.id >= end)
    || (t == v && PastOwn(x, t))
    || (x.pos.Scan? && x.pos.i > v)
    || ((x.pos.Draw? || x.pos.Drew? || x.pos.Compute?) && x.pos.v != t && x.pos.v > v)
    || x.pos.Finish?
    || (x.pos.Poll? && x.status.WAITING? && isLive)
  }

  function OverCount(s: State, v: nat, end: int, k: nat): (c: nat)
    requires k <= |s.threads|
    ensures c <= k
  {
    if k == 0 then 0
    else OverCount(s, v, end, k - 1) + (if Over(s.threads[k - 1], k - 1, k - 1 in s.live, v, end) then 1 else 0)
  }

  ghost predicate BoundAt(s: State, v: nat)
    requires v < |s.threads| && |s.ranges| == |s.threads|
  {
    v in s.live ==> s.threads[v].curr <= s.ranges[v].end + OverCount(s, v, s.ranges[v].end, |s.threads|)
  }

  ghost predicate BoundInv(s: State)
    requires |s.ranges| == |s.threads|
  {
    forall v :: 0 <= v < |s.threads| ==> BoundAt(s, v)
  }

  lemma {:induction false} OverGrows(s: State, s': State, v: nat, end: int, k: nat, t: nat)
    requires k <= |s.threads| == |s'.threads| && t < |s.threads|
    requires forall u: nat :: u < |s.threads| && Over(s.threads[u], u, u in s.live, v, end)
                              ==> Over(s'.threads[u], u, u in s'.live, v, end)
    ensures OverCount(s', v, end, k) >= OverCount(s, v, end, k)
      + if t < k && Over(s'.threads[t], t, t in s'.live, v, end) && !Over(s.threads[t], t, t in s.live, v, end) then 1 else 0
  {
    if k > 0 {
      OverGrows(s, s', v, end, k - 1, t);
    }
  }

  /** A thread never gives a used overshoot back within a job. */
  lemma OverKept(s: State, a: Act, v: nat, u: nat)
    requires Inv(s) && Enabled(s, a) && !a.Begin? && u < |s.threads| && v in s.live
    requires Over(s.threads[u], u, u in s.live, v, s.ranges[v].end)
    ensures Over(Step(s, a).threads[u], u, u in Step(s, a).live, v, s.ranges[v].end)
  {
    assert ThreadInv(s, u) && NonEmpty(s.ranges, v) && ThreadInv(s, v);
    if a == Work(u) {
      hide Inv;
      OverKeptByStep(s, v, u);
    } else {
      hide LogInv, HeldOnce, ThreadsInv, Over;
      OverKeptByOthers(s, a, v, u);
    }
  }

  lemma OverKeptByStep(s: State, v: nat, u: nat)
    requires Enabled(s, Work(u)) && |s.ranges| == |s.threads| && ThreadInv(s, u)
    requires v in s.live && v < |s.threads| && s.threads[v].end == s.ranges[v].end
    requires Over(s.threads[u], u, u in s.live, v, s.ranges[v].end)
    ensures Over(ThreadStep(s, u).threads[u], u, u in s.live, v, s.ranges[v].end)
  {
  }

  lemma OverKeptByOthers(s: State, a: Act, v: nat, u: nat)
    requires CallInv(s) && Enabled(s, a) && !a.Begin? && u < |s.threads| && a != Work(u) && v in s.live
    requires (s.threads[u].status.WORKING? ==> u in s.live) && (!s.threads[u].pos.Poll? ==> s.threads[u].status.WORKING?)
    ensures var end := s.ranges[v].end;
      Over(s.threads[u], u, u in s.live, v, end) ==> Over(Step(s, a).threads[u], u, u in Step(s, a).live, v, end)
  {
    hide Disjoint;
  }

  lemma BoundStep(s: State, a: Act)
    requires Inv(s) && BoundInv(s) && Enabled(s, a)
    ensures |Step(s, a).ranges| == |Step(s, a).threads| && BoundInv(Step(s, a))
  {
    StepInv(s, a);
    var s' := Step(s, a);
    if !a.Begin? {
      forall v: nat | v < |s'.threads| ensures BoundAt(s', v) {
        BoundStepAt(s, a, v);
      }
    }
  }

  lemma BoundStepAt(s: State, a: Act, v: nat)
    requires Inv(s) && BoundInv(s) && Enabled(s, a) && !a.Begin? && v < |s.threads|
    ensures |Step(s, a).ranges| == |Step(s, a).threads| == |s.threads| && BoundAt(Step(s, a), v)
  {
    var s', end := Step(s, a), s.ranges[v].end;
    assert BoundAt(s, v);
    if v in s.live {
      forall u: nat | u < |s.threads| && Over(s.threads[u], u, u in s.live, v, end)
        ensures Over(s'.threads[u], u, u in s'.live, v, end) { OverKept(s, a, v, u); }
      OverGrows(s, s', v, end, |s.threads|, if a.Work? then a.t else v);
      hide LogInv, HeldOnce, OverCount;
      CurrMoves(s, a, v);
    } else {
      NewlyLive(s, a, v);
    }
  }

  /** A live thread's counter moves only by a fetch_add, which past the end makes the drawer Over. */
  lemma CurrMoves(s: State, a: Act, v: nat)
    requires Inv(s) && Enabled(s, a) && !a.Begin? && v < |s.threads| && v in s.live
    ensures var x, x' := s.threads[v], Step(s, a).threads[v];
      && v in Step(s, a).live && Step(s, a).ranges == s.ranges && |Step(s, a).threads| == |s.threads|
      && (x'.curr == x.curr || (x'.curr == x.curr + 1 && a.Work?
            && !Over(s.threads[a.t], a.t, a.t in s.live, v, s.ranges[v].end)
            && (x.curr >= s.ranges[v].end ==> Over(Step(s, a).threads[a.t], a.t, a.t in s.live, v, s.ranges[v].end))))
  {
    hide LogInv, HeldOnce, ThreadsInv, Disjoint;
  }

  lemma NewlyLive(s: State, a: Act, v: nat)
    requires Inv(s) && Enabled(s, a) && !a.Begin? && v < |s.threads| && v !in s.live
    ensures |Step(s, a).ranges| == |Step(s, a).threads| == |s.threads| && BoundAt(Step(s, a), v)
  {
    hide LogInv, HeldOnce, ThreadsInv, Disjoint;
  }

  lemma InitInv(nodes: seq<nat>)
    ensures Inv(Init(nodes)) && BoundInv(Init(nodes))
  {
  }

  lemma {:induction false} RunInv(s: State, acts: seq<Act>)
    requires Inv(s) && BoundInv(s) && Feasible(s, acts)
    ensures Inv(After(s, acts)) && BoundInv(After(s, acts)) && |After(s, acts).threads| == |s.threads|
    decreases |acts|
  {
    if acts != [] {
      StepInv(s, acts[0]);
      BoundStep(s, acts[0]);
      assert |Step(s, acts[0]).threads| == |s.threads|;
      hide Inv, BoundInv, Enabled, Step;
      RunInv(Step(s, acts[0]), acts[1..]);
    }
  }

  lemma ReachableInv(s: State)
    requires Reachable(s)
    ensures Inv(s) && BoundInv(s)
  {
    var nodes, acts :| Feasible(Init(nodes), acts) && After(Init(nodes), acts) == s;
    InitInv(nodes);
    RunInv(Init(nodes), acts);
  }

  /** When the call returns, every task id of every thread's range has been computed exactly once,
      on behalf of that thread's range and no other, and nothing else has been computed. */
  lemma ExactlyOnceOnReturn(s: State, v: nat, id: int)
    requires Reachable(s) && s.caller.Idle?
    ensures s.log[(s.job, v, id)] == if v < |s.ranges| && s.ranges[v].begin <= id < s.ranges[v].end then 1 else 0
  {
    ReachableInv(s);
    assert s.log[(s.job, v, id)] == Expected(s, v, id);
    if v < |s.ranges| && s.ranges[v].begin <= id < s.ranges[v].end {
      assert NonEmpty(s.ranges, v) && ThreadInv(s, v);
      forall t | 0 <= t < |s.threads| ensures !Holds(s.threads[t], v, id) { assert ThreadInv(s, t); }
    }
  }

  /** A task is computed only by a thread on the node of the thread whose range holds it, while the job is
      running, and never for a second time. */
  lemma ComputedOnOwnersNode(s: State, t: nat)
    requires Reachable(s) && Enabled(s, Work(t)) && s.threads[t].pos.Compute?
    ensures var x := s.threads[t].pos;
      && x.v < |s.ranges| && s.ranges[x.v].begin <= x.id < s.ranges[x.v].end
      && x.v < |s.threads| && s.threads[x.v].node == s.threads[t].node
      && s.log[(s.job, x.v, x.id)] == 0 && !s.caller.Idle?
  {
    ReachableInv(s);
    ComputeInv(s, t);
    assert ThreadInv(s, t);
  }

  lemma CounterStaysNearEnd(s: State, v: nat)
    requires Reachable(s) && v in s.live
    ensures v < |s.threads| && v < |s.ranges| && s.threads[v].curr <= s.ranges[v].end + |s.threads|
  {
    ReachableInv(s);
    assert BoundAt(s, v);
  }

  lemma {:induction false} Chain(s: State, a: seq<Act>, b: seq<Act>)
    requires Feasible(s, a) && Feasible(After(s, a), b)
    ensures Feasible(s, a + b) && After(s, a + b) == After(After(s, a), b)
    decreases |a|
  {
    hide Enabled, Step;
    if a == [] {
      assert a + b == b;
    } else {
      Chain(Step(s, a[0]), a[1..], b);
      assert (a + b)[0] == a[0] && (a + b)[1..] == a[1..] + b;
    }
  }

  lemma ReachOne(s: State, a: Act)
    requires Reachable(s) && Enabled(s, a)
    ensures Reachable(Step(s, a))
  {
    var nodes, acts :| Feasible(Init(nodes), acts) && After(Init(nodes), acts) == s;
    assert [a][1..] == [] && Feasible(Step(s, a), []);
    hide Enabled, Step;
    Chain(Init(nodes), acts, [a]);
  }

  // ----- Every job ends: no deadlock, and a measure that every step lowers.

  lemma NeverStuck(s: State)
    requires Inv(s) && !s.caller.Idle?
    ensures Enabled(s, Advance) || exists t :: Enabled(s, Work(t))
  {
    if s.caller.Await? && s.caller.i < |s.threads| && s.threads[s.caller.i].status.WORKING? {
      assert ThreadInv(s, s.caller.i);
      assert Enabled(s, Work(s.caller.i));
    }
  }

  /** Steps the caller still has to take. */
  function CallerMeasure(s: State): nat {
    match s.caller
    case Idle => 0
    case Await(i) => 1 + (if i < |s.threads| then |s.threads| - i else 0)
    case SetCurr => 3 + |s.threads| + 3 * |s.todo|
    case SetEnd => 2 + |s.threads| + 3 * |s.todo|
    case SetStatus => 1 + |s.threads| + 3 * |s.todo|
  }

  lemma CallerStepDecreases(s: State)
    requires Inv(s) && Enabled(s, Advance)
    ensures CallerMeasure(Step(s, Advance)) < CallerMeasure(s)
  {
    hide ThreadsInv, HeldOnce, LogInv;
  }

  /** Steps thread t may take without another fetch_add; nT is the number of threads. */
  function Weight(x: Thread, t: nat, nT: nat): nat {
    var left := (i: nat) => 3 * (if i < nT then nT - i else 0);
    match x.pos
    case Poll => if x.status.WORKING? then left(0) + 30 else 0
    case Check => left(0) + 20
    case Draw(v) => if v == t then left(0) + 15 else left(v) + 6
    case Drew(v, _) => if v == t then left(0) + 22 else left(v) + 15
    case Compute(v, _) => if v == t then left(0) + 21 else left(v) + 14
    case Scan(i) => left(i) + 8
    case Finish => 4
  }

  function Room(s: State, v: nat): int
    requires v < |s.threads| && v < |s.ranges|
  {
    if v in s.live then s.ranges[v].end + |s.threads| - s.threads[v].curr else 0
  }

  function Fuel(s: State, k: nat): int
    requires k <= |s.threads| == |s.ranges|
  {
    if k == 0 then 0 else Fuel(s, k - 1) + 10 * Room(s, k - 1) + Weight(s.threads[k - 1], k - 1, |s.threads|)
  }

  lemma {:induction false} FuelNat(s: State, k: nat)
    requires BoundInv'(s) && k <= |s.threads|
    ensures Fuel(s, k) >= 0
  {
    if k > 0 {
      assert BoundAt(s, k - 1);
      FuelNat(s, k - 1);
    }
  }

  ghost predicate BoundInv'(s: State) {
    |s.ranges| == |s.threads| && BoundInv(s)
  }

  /** What one thread step does to the fuel of each thread: t gets lighter, or pays for it with v's counter. */
  lemma StepFuelAt(s: State, t: nat, u: nat)
    requires Inv(s) && Enabled(s, Work(t)) && u < |s.threads|
    ensures var s' := ThreadStep(s, t);
      && |s'.threads| == |s.threads| && |s'.ranges| == |s.ranges|
      && (u != t ==> Weight(s'.threads[u], u, |s.threads|) == Weight(s.threads[u], u, |s.threads|))
      && Room(s', u) == Room(s, u) - (if s.threads[t].pos == Draw(u) then 1 else 0)
  {
    hide HeldOnce, LogInv, Disjoint, Covers;
    assert ThreadInv(s, t);
  }

  lemma StepWeight(s: State, t: nat)
    requires Inv(s) && Enabled(s, Work(t))
    ensures Weight(ThreadStep(s, t).threads[t], t, |s.threads|)
          < Weight(s.threads[t], t, |s.threads|) + if s.threads[t].pos.Draw? then 10 else 0
  {
    hide HeldOnce, LogInv;
    assert ThreadInv(s, t);
  }

  lemma {:induction false} FuelDrops(s: State, t: nat, k: nat)
    requires Inv(s) && Enabled(s, Work(t)) && k <= |s.threads| && t < |s.threads|
    ensures var s' := ThreadStep(s, t);
      && |s'.threads| == |s.threads| == |s'.ranges| == |s.ranges|
      && Fuel(s', k) == Fuel(s, k)
        - (if s.threads[t].pos.Draw? && s.threads[t].pos.v < k then 10 else 0)
        + (if t < k then Weight(s'.threads[t], t, |s.threads|) - Weight(s.threads[t], t, |s.threads|) else 0)
  {
    hide ThreadStep, Weight, HeldOnce, LogInv, ThreadsInv, Enabled;
    if k > 0 {
      StepFuelAt(s, t, k - 1);
      FuelDrops(s, t, k - 1);
    } else {
      StepFuelAt(s, t, t);
    }
  }

  lemma ThreadStepDecreases(s: State, t: nat)
    requires Inv(s) && Enabled(s, Work(t))
    ensures |ThreadStep(s, t).threads| == |ThreadStep(s, t).ranges| == |s.threads|
    ensures Fuel(ThreadStep(s, t), |s.threads|) < Fuel(s, |s.threads|) && ThreadStep(s, t).caller == s.caller
  {
    FuelDrops(s, t, |s.threads|);
    StepWeight(s, t);
    assert ThreadInv(s, t);
  }
}
