/** Backend_NUMA's job protocol: one contiguous range of task ids per thread, a status barrier, and
    stealing by fetch_add from threads of the same node.  One model step is one atomic operation. */
module WorkStealing {

  datatype Status = WAITING | WORKING

  // Where a thread stands in worker_thread / process_tasks.
  datatype Pos =
    | Poll                     // worker_thread reads its own status
    | Check                    // own loop reads its own status
    | Draw(v: nat)             // about to fetch_add thread v's curr
    | Drew(v: nat, id: int)    // got task id from thread v, not yet compared with v's end
    | Compute(v: nat, id: int) // about to call compute_func_(id)
    | Scan(i: nat)             // stealing loop looks at thread i
    | Finish                   // about to store WAITING into its own status

  /** A_ThreadState plus the thread's node and program position. */
  datatype Thread = Thread(node: nat, status: Status, curr: int, end: int, pos: Pos)

  datatype Range = Range(begin: int, end: int)

  // Where the caller stands: storing curr, end, status of todo[0], or reading thread i's status.
  datatype Caller = Idle | SetCurr | SetEnd | SetStatus | Await(i: nat)

  /** `ranges` is the partition of the current job, `todo` the threads not dispatched yet; `live` (the threads
      set WORKING in this job) and `log` (executions as (job, owner of the range, task id)) are history variables. */
  datatype State = State(threads: seq<Thread>, job: nat, ranges: seq<Range>, todo: seq<nat>, caller: Caller,
                         live: set<nat>, log: multiset<(nat, nat, int)>)

  datatype Act = Work(t: nat) | Begin(ranges: seq<Range>, order: seq<nat>) | Advance

  /** No task id lies in two threads' ranges. */
  ghost predicate Disjoint(ranges: seq<Range>) {
    forall u, v :: 0 <= u < |ranges| && 0 <= v < |ranges| && u != v && ranges[u].begin < ranges[u].end
                   ==> !(ranges[v].begin < ranges[u].end && ranges[u].begin < ranges[v].end)
  }

  predicate NonEmpty(ranges: seq<Range>, v: nat) {
    v < |ranges| && ranges[v].begin < ranges[v].end
  }

  /** The dispatch order names threads at most once, and every thread with work. */
  ghost predicate Covers(ranges: seq<Range>, order: seq<nat>, live: set<nat>) {
    && (forall j :: 0 <= j < |order| ==> order[j] < |ranges| && order[j] !in live)
    && (forall j, l :: 0 <= j < l < |order| ==> order[j] != order[l])
    && (forall v: nat :: NonEmpty(ranges, v) ==> v in order || v in live)
    && (forall v: nat :: v in live ==> NonEmpty(ranges, v))
  }

  /** The thread a position refers to exists. */
  predicate Placed(s: State, pos: Pos) {
    pos.Draw? || pos.Drew? || pos.Compute? ==> pos.v < |s.threads|
  }

  /** Thread t can take a step: a thread outside its job waits for WORKING. */
  predicate Runnable(s: State, t: nat) {
    t < |s.threads| && Placed(s, s.threads[t].pos) && (s.threads[t].pos.Poll? ==> s.threads[t].status.WORKING?)
  }

  predicate CallerReady(s: State) {
    match s.caller
    case Idle => false
    case Await(i) => i < |s.threads| ==> s.threads[i].status.WAITING?
    case SetCurr => |s.ranges| == |s.threads| && (s.todo != [] ==> s.todo[0] < |s.threads|)
    case _ => |s.ranges| == |s.threads| && s.todo != [] && s.todo[0] < |s.threads|
  }

  ghost predicate Enabled(s: State, a: Act) {
    match a
    case Work(t) => Runnable(s, t)
    case Begin(ranges, order) =>
      s.caller.Idle? && |ranges| == |s.threads| && Disjoint(ranges) && Covers(ranges, order, {})
    case Advance => CallerReady(s)
  }

  function Move(s: State, t: nat, pos: Pos): State
    requires t < |s.threads|
  {
    s.(threads := s.threads[t := s.threads[t].(pos := pos)])
  }

  function Bump(s: State, v: nat): State
    requires v < |s.threads|
  {
    s.(threads := s.threads[v := s.threads[v].(curr := s.threads[v].curr + 1)])
  }

  predicate CanSteal(s: State, t: nat, v: nat)
    requires t < |s.threads| && v < |s.threads|
  {
    v != t && s.threads[v].node == s.threads[t].node && s.threads[v].status.WORKING?
  }

  function ThreadStep(s: State, t: nat): State
    requires t < |s.threads| && Placed(s, s.threads[t].pos)
  {
    match s.threads[t].pos
    case Poll => Move(s, t, Check)
    case Check => Move(s, t, if s.threads[t].status.WORKING? then Draw(t) else Scan(0))
    case Draw(v) => Move(Bump(s, v), t, Drew(v, s.threads[v].curr))
    case Drew(v, id) =>
      Move(s, t, if id < s.threads[v].end then Compute(v, id) else if v == t then Scan(0) else Scan(v + 1))
    case Compute(v, id) =>
      Move(s, t, if v == t then Check else Draw(v)).(log := s.log + multiset{(s.job, v, id)})
    case Scan(i) =>
      Move(s, t, if i >= |s.threads| then Finish else if CanSteal(s, t, i) then Draw(i) else Scan(i + 1))
    case Finish => s.(threads := s.threads[t := s.threads[t].(pos := Poll, status := WAITING)])
  }

  function SetThread(s: State, v: nat, x: Thread, next: Caller): State
    requires v < |s.threads|
  {
    s.(threads := s.threads[v := x], caller := next)
  }

  function CallerStep(s: State): State
    requires Enabled(s, Advance)
  {
    match s.caller
    case SetCurr =>
      if s.todo == [] then s.(caller := Await(0)) else
      var v := s.todo[0];
      var r := s.ranges[v];
      if r.begin >= r.end
      then SetThread(s, v, s.threads[v].(status := WAITING, end := -1, curr := 0), SetCurr).(todo := s.todo[1..])
      else SetThread(s, v, s.threads[v].(curr := r.begin), SetEnd)
    case SetEnd => SetThread(s, s.todo[0], s.threads[s.todo[0]].(end := s.ranges[s.todo[0]].end), SetStatus)
    case SetStatus =>
      SetThread(s, s.todo[0], s.threads[s.todo[0]].(status := WORKING), SetCurr).(todo := s.todo[1..], live := s.live + {s.todo[0]})
    case Await(i) => s.(caller := if i < |s.threads| then Await(i + 1) else Idle)
  }

  ghost function Step(s: State, a: Act): State
    requires Enabled(s, a)
  {
    match a
    case Work(t) => ThreadStep(s, t)
    case Begin(ranges, order) =>
      s.(job := s.job + 1, ranges := ranges, todo := order, live := {}, caller := SetCurr)
    case Advance => CallerStep(s)
  }

  ghost function Init(nodes: seq<nat>): State {
    State(seq(|nodes|, t requires 0 <= t < |nodes| => Thread(nodes[t], WAITING, 0, 0, Poll)), 0,
          seq(|nodes|, _ => Range(0, 0)), [], Idle, {}, multiset{})
  }

  // ----- The invariant.

  /** Thread x has drawn task id of owner v and not finished with it. */
  predicate Holds(x: Thread, v: nat, id: int) {
    x.pos == Drew(v, id) || x.pos == Compute(v, id)
  }

  ghost predicate SomeoneHolds(ts: seq<Thread>, v: nat, id: int) {
    exists t :: 0 <= t < |ts| && Holds(ts[t], v, id)
  }

  /** Thread t is past its own loop. */
  predicate PastOwn(x: Thread, t: nat) {
    x.pos.Scan? || x.pos.Finish? || ((x.pos.Draw? || x.pos.Drew? || x.pos.Compute?) && x.pos.v != t)
  }

  ghost predicate CallInv(s: State) {
    && |s.ranges| == |s.threads| && Disjoint(s.ranges) && Covers(s.ranges, s.todo, s.live)
    && (s.caller.SetEnd? || s.caller.SetStatus? ==> s.todo != [] && NonEmpty(s.ranges, s.todo[0]))
    && (s.caller.SetEnd? || s.caller.SetStatus? ==> s.threads[s.todo[0]].curr == s.ranges[s.todo[0]].begin)
    && (s.caller.SetStatus? ==> s.threads[s.todo[0]].end == s.ranges[s.todo[0]].end)
    && (s.caller.Idle? || s.caller.Await? ==> s.todo == [])
    && (forall t :: 0 <= t < |s.threads| && (s.caller.Idle? || (s.caller.Await? && t < s.caller.i))
                    ==> s.threads[t].status.WAITING?)
  }

  ghost predicate ThreadInv(s: State, t: nat)
    requires |s.ranges| == |s.threads| && t < |s.threads|
  {
    var x := s.threads[t];
    && (x.status.WORKING? ==> t in s.live)
    && (!x.pos.Poll? ==> x.status.WORKING?)
    && (x.pos.Draw? || x.pos.Drew? || x.pos.Compute? ==> x.pos.v in s.live && x.pos.v < |s.threads| && s.threads[x.pos.v].node == x.node)
    && (x.pos.Drew? || x.pos.Compute? ==> s.ranges[x.pos.v].begin <= x.pos.id < s.threads[x.pos.v].curr)
    && (x.pos.Compute? ==> x.pos.id < s.ranges[x.pos.v].end)
    && (t in s.live ==> x.end == s.ranges[t].end && s.ranges[t].begin <= x.curr)
    && (t in s.live && (x.status.WAITING? || PastOwn(x, t)) ==> s.ranges[t].end <= x.curr)
  }

  ghost predicate ThreadsInv(s: State)
    requires |s.ranges| == |s.threads|
  {
    forall t :: 0 <= t < |s.threads| ==> ThreadInv(s, t)
  }

  ghost predicate HeldOnce(ts: seq<Thread>) {
    forall t, u :: 0 <= t < |ts| && 0 <= u < |ts| && t != u && (ts[t].pos.Drew? || ts[t].pos.Compute?)
                   ==> !Holds(ts[u], ts[t].pos.v, ts[t].pos.id)
  }

  /** How often task id of owner v has run in the current job. */
  ghost function Expected(s: State, v: nat, id: int): nat {
    if v in s.live && v < |s.threads| && v < |s.ranges| && s.ranges[v].begin <= id < s.ranges[v].end
       && id < s.threads[v].curr && !SomeoneHolds(s.threads, v, id) then 1 else 0
  }

  ghost predicate LogInv(s: State) {
    && (forall v: nat, id: int :: s.log[(s.job, v, id)] == Expected(s, v, id))
    && (forall g: nat, v: nat, id: int :: g > s.job ==> s.log[(g, v, id)] == 0)
  }

  ghost predicate Inv(s: State) {
    CallInv(s) && ThreadsInv(s) && HeldOnce(s.threads) && LogInv(s)
  }

  // ----- Thread steps.

  lemma HoldersMoved(ts: seq<Thread>, ts': seq<Thread>, t: nat)
    requires t < |ts| == |ts'| && forall u :: 0 <= u < |ts| && u != t ==> ts'[u].pos == ts[u].pos
    ensures forall v: nat, id: int :: SomeoneHolds(ts', v, id) ==> Holds(ts'[t], v, id) || SomeoneHolds(ts, v, id)
    ensures forall v: nat, id: int :: SomeoneHolds(ts, v, id) && !Holds(ts[t], v, id) ==> SomeoneHolds(ts', v, id)
    ensures forall v: nat, id: int :: Holds(ts'[t], v, id) ==> SomeoneHolds(ts', v, id)
  {
    forall v: nat, id: int | SomeoneHolds(ts, v, id) && !Holds(ts[t], v, id) ensures SomeoneHolds(ts', v, id) {
      var u :| 0 <= u < |ts| && Holds(ts[u], v, id);
      assert Holds(ts'[u], v, id);
    }
    forall v: nat, id: int | SomeoneHolds(ts', v, id) && !Holds(ts'[t], v, id) ensures SomeoneHolds(ts, v, id) {
      var u :| 0 <= u < |ts'| && Holds(ts'[u], v, id);
      assert Holds(ts[u], v, id);
    }
  }

  /** Nobody else holds what t holds. */
  lemma SoleHolder(ts: seq<Thread>, ts': seq<Thread>, t: nat)
    requires HeldOnce(ts) && t < |ts| == |ts'| && forall u :: 0 <= u < |ts| && u != t ==> ts'[u].pos == ts[u].pos
    requires ts[t].pos.Drew? || ts[t].pos.Compute?
    requires !Holds(ts'[t], ts[t].pos.v, ts[t].pos.id)
    ensures !SomeoneHolds(ts', ts[t].pos.v, ts[t].pos.id)
  {
    forall u | 0 <= u < |ts'| ensures !Holds(ts'[u], ts[t].pos.v, ts[t].pos.id) { }
  }

  /** A step of thread t that changes neither a counter nor the log, and keeps or drops what it holds. */
  lemma QuietLog(s: State, s': State, t: nat)
    requires LogInv(s) && HeldOnce(s.threads) && t < |s.threads| == |s'.threads|
    requires s' == s.(threads := s'.threads)
    requires forall u :: 0 <= u < |s.threads| && u != t ==> s'.threads[u] == s.threads[u]
    requires s'.threads[t].curr == s.threads[t].curr
    requires forall v: nat, id: int :: Holds(s'.threads[t], v, id) ==> Holds(s.threads[t], v, id)
    requires forall v: nat, id: int :: Holds(s.threads[t], v, id) && !Holds(s'.threads[t], v, id)
               ==> !(v < |s.ranges| && id < s.ranges[v].end)
    ensures LogInv(s') && HeldOnce(s'.threads)
  {
    HoldersMoved(s.threads, s'.threads, t);
    forall v: nat, id: int ensures s'.log[(s'.job, v, id)] == Expected(s', v, id) {
      assert s.log[(s.job, v, id)] == Expected(s, v, id);
    }
  }

  /** Moving one thread's program position leaves what is known of the others untouched. */
  lemma OthersKeep(s: State, s': State, t: nat)
    requires |s.ranges| == |s.threads| == |s'.threads| && ThreadsInv(s) && t < |s.threads|
    requires s'.ranges == s.ranges && s'.live == s.live && ThreadInv(s', t)
    requires forall u :: 0 <= u < |s.threads| && u != t ==> s'.threads[u] == s.threads[u]
    requires s'.threads[t].node == s.threads[t].node && s'.threads[t].curr == s.threads[t].curr
    ensures ThreadsInv(s')
  {
    forall u | 0 <= u < |s'.threads| ensures ThreadInv(s', u) {
      assert ThreadInv(s, u);
    }
  }

  lemma MovedThread(s: State, t: nat)
    requires |s.ranges| == |s.threads| && Enabled(s, Work(t)) && !s.threads[t].pos.Draw? && ThreadInv(s, t)
    requires var pos := s.threads[t].pos;
      && (pos.Drew? ==> ThreadInv(s, pos.v)) && (pos.Scan? && pos.i < |s.threads| ==> ThreadInv(s, pos.i))
    ensures ThreadInv(ThreadStep(s, t), t)
  {
  }

  lemma MovedCall(s: State, t: nat)
    requires CallInv(s) && Enabled(s, Work(t)) && !s.threads[t].pos.Draw?
    requires s.threads[t].status.WAITING? ==> s.threads[t].pos.Poll?
    ensures CallInv(ThreadStep(s, t))
  {
  }

  lemma MoveThreads(s: State, t: nat)
    requires Inv(s) && Enabled(s, Work(t)) && !s.threads[t].pos.Draw?
    ensures CallInv(ThreadStep(s, t)) && ThreadsInv(ThreadStep(s, t))
  {
    var pos := s.threads[t].pos;
    assert ThreadInv(s, t) && (pos.Drew? ==> ThreadInv(s, pos.v)) && (pos.Scan? && pos.i < |s.threads| ==> ThreadInv(s, pos.i));
    hide LogInv, HeldOnce, ThreadsInv;
    MovedThread(s, t);
    MovedCall(s, t);
    hide CallInv, ThreadInv;
    OthersKeep(s, ThreadStep(s, t), t);
  }

  lemma ThreadStepInv(s: State, t: nat)
    requires Inv(s) && Enabled(s, Work(t)) && !s.threads[t].pos.Draw? && !s.threads[t].pos.Compute?
    ensures Inv(ThreadStep(s, t))
  {
    MoveThreads(s, t);
    assert ThreadInv(s, t) && (s.threads[t].pos.Drew? ==> ThreadInv(s, s.threads[t].pos.v));
    QuietLog(s, ThreadStep(s, t), t);
  }

  lemma ComputeInv(s: State, t: nat)
    requires Inv(s) && Enabled(s, Work(t)) && s.threads[t].pos.Compute?
    ensures var x := s.threads[t].pos;
      && x.v in s.live && x.v < |s.ranges| && s.ranges[x.v].begin <= x.id < s.ranges[x.v].end
      && s.threads[x.v].node == s.threads[t].node && s.log[(s.job, x.v, x.id)] == 0
    ensures Inv(ThreadStep(s, t))
  {
    var s', x := ThreadStep(s, t), s.threads[t].pos;
    MoveThreads(s, t);
    assert ThreadInv(s, t) && Holds(s.threads[t], x.v, x.id) && SomeoneHolds(s.threads, x.v, x.id);
    HoldersMoved(s.threads, s'.threads, t);
    SoleHolder(s.threads, s'.threads, t);
    hide ThreadsInv, CallInv;
    forall v: nat, id: int ensures s'.log[(s'.job, v, id)] == Expected(s', v, id) {
      assert s.log[(s.job, v, id)] == Expected(s, v, id);
    }
  }

  lemma DrawThreads(s: State, t: nat)
    requires Inv(s) && Enabled(s, Work(t)) && s.threads[t].pos.Draw?
    ensures CallInv(ThreadStep(s, t)) && ThreadsInv(ThreadStep(s, t))
  {
    hide LogInv, HeldOnce;
    var s', v := ThreadStep(s, t), s.threads[t].pos.v;
    assert ThreadInv(s, t) && ThreadInv(s, v);
    forall u | 0 <= u < |s'.threads| ensures ThreadInv(s', u) {
      assert ThreadInv(s, u);
    }
  }

  lemma DrawHolders(s: State, t: nat)
    requires ThreadsInv'(s) && HeldOnce(s.threads) && Enabled(s, Work(t)) && s.threads[t].pos.Draw?
    ensures HeldOnce(ThreadStep(s, t).threads)
    ensures !SomeoneHolds(s.threads, s.threads[t].pos.v, s.threads[s.threads[t].pos.v].curr)
  {
    var ts, ts', v := s.threads, ThreadStep(s, t).threads, s.threads[t].pos.v;
    forall u | 0 <= u < |ts| ensures !Holds(ts[u], v, ts[v].curr) {
      assert ThreadInv(s, u);
    }
  }

  ghost predicate ThreadsInv'(s: State) {
    |s.ranges| == |s.threads| && ThreadsInv(s)
  }

  lemma DrawInv(s: State, t: nat)
    requires Inv(s) && Enabled(s, Work(t)) && s.threads[t].pos.Draw?
    ensures Inv(ThreadStep(s, t))
  {
    var s', v := ThreadStep(s, t), s.threads[t].pos.v;
    DrawThreads(s, t);
    DrawHolders(s, t);
    HoldersMoved(s.threads, s'.threads, t);
    hide ThreadsInv, CallInv, HeldOnce;
    assert Holds(s'.threads[t], v, s.threads[v].curr);
    forall w: nat, id: int ensures s'.log[(s'.job, w, id)] == Expected(s', w, id) {
      assert s.log[(s.job, w, id)] == Expected(s, w, id);
    }
  }

  // ----- Caller steps.

  lemma SameLog(s: State, s': State)
    requires LogInv(s) && s'.log == s.log && s'.job == s.job && s'.ranges == s.ranges && |s'.threads| == |s.threads|
    requires forall u :: 0 <= u < |s.threads| ==> s'.threads[u].pos == s.threads[u].pos
    requires s.live <= s'.live
    requires forall v :: 0 <= v < |s.threads| && v in s.live ==> s'.threads[v].curr == s.threads[v].curr
    requires |s.ranges| == |s.threads|
    requires forall v :: 0 <= v < |s.ranges| && v in s'.live && v !in s.live ==> s'.threads[v].curr <= s.ranges[v].begin
    ensures LogInv(s')
  {
    forall v: nat, id: int ensures SomeoneHolds(s'.threads, v, id) <==> SomeoneHolds(s.threads, v, id) {
      if SomeoneHolds(s.threads, v, id) {
        var u :| 0 <= u < |s.threads| && Holds(s.threads[u], v, id);
        assert Holds(s'.threads[u], v, id);
      }
      if SomeoneHolds(s'.threads, v, id) {
        var u :| 0 <= u < |s.threads| && Holds(s'.threads[u], v, id);
        assert Holds(s.threads[u], v, id);
      }
    }
    forall v: nat, id: int ensures s'.log[(s'.job, v, id)] == Expected(s', v, id) {
      assert s.log[(s.job, v, id)] == Expected(s, v, id);
    }
  }

  lemma DispatchCall(s: State)
    requires CallInv(s) && ThreadsInv(s) && Enabled(s, Advance) && !s.caller.Await?
    ensures CallInv(CallerStep(s))
  {
    hide ThreadInv;
    if s.todo != [] {
      assert forall v :: v in s.todo <==> v == s.todo[0] || v in s.todo[1..];
    }
  }

  /** The dispatcher writes a thread's fields only while nobody reads them: before it is set WORKING. */
  lemma DispatchThread(s: State, u: nat)
    requires CallInv(s) && Enabled(s, Advance) && !s.caller.Await? && |CallerStep(s).ranges| == |CallerStep(s).threads|
    requires u < |s.threads| && ThreadInv(s, u) && (s.todo != [] ==> s.todo[0] !in s.live && ThreadInv(s, s.todo[0]))
    ensures ThreadInv(CallerStep(s), u)
  {
    hide Disjoint;
  }

  lemma DispatchThreads(s: State)
    requires Inv(s) && Enabled(s, Advance) && !s.caller.Await?
    ensures CallInv(CallerStep(s)) && ThreadsInv(CallerStep(s)) && HeldOnce(CallerStep(s).threads)
  {
    hide LogInv, CallerStep, ThreadInv;
    DispatchCall(s);
    DispatchHolders(s);
    assert s.todo != [] ==> s.todo[0] !in s.live && ThreadInv(s, s.todo[0]);
    var s' := CallerStep(s);
    hide HeldOnce, Disjoint;
    forall u | 0 <= u < |s'.threads| ensures ThreadInv(s', u) {
      assert ThreadInv(s, u);
      DispatchThread(s, u);
    }
  }

  lemma DispatchHolders(s: State)
    requires CallInv(s) && HeldOnce(s.threads) && Enabled(s, Advance) && !s.caller.Await?
    ensures HeldOnce(CallerStep(s).threads) && |CallerStep(s).threads| == |s.threads| && |CallerStep(s).ranges| == |s.threads|
  {
    hide Disjoint;
    var ts' := CallerStep(s).threads;
    assert |ts'| == |s.threads| && forall u :: 0 <= u < |ts'| ==> ts'[u].pos == s.threads[u].pos;
    hide CallerStep;
  }

  lemma DispatchInv(s: State)
    requires Inv(s) && Enabled(s, Advance) && !s.caller.Await?
    ensures Inv(CallerStep(s))
  {
    DispatchThreads(s);
    if s.todo != [] {
      assert s.todo[0] !in s.live && ThreadInv(s, s.todo[0]);
    }
    hide ThreadsInv, HeldOnce;
    SameLog(s, CallerStep(s));
  }

  lemma AwaitInv(s: State)
    requires Inv(s) && Enabled(s, Advance) && s.caller.Await?
    ensures Inv(CallerStep(s))
  {
    var s' := CallerStep(s);
    forall u | 0 <= u < |s'.threads| ensures ThreadInv(s', u) {
      assert ThreadInv(s, u);
    }
    SameLog(s, s');
  }

  lemma BeginInv(s: State, ranges: seq<Range>, order: seq<nat>)
    requires Inv(s) && Enabled(s, Begin(ranges, order))
    ensures Inv(Step(s, Begin(ranges, order)))
  {
    var s' := Step(s, Begin(ranges, order));
    forall u | 0 <= u < |s'.threads| ensures ThreadInv(s', u) {
      assert ThreadInv(s, u);
    }
    assert HeldOnce(s'.threads);
  }

  lemma StepInv(s: State, a: Act)
    requires Inv(s) && Enabled(s, a)
    ensures Inv(Step(s, a))
  {
    match a
    case Begin(ranges, order) => BeginInv(s, ranges, order);
    case Advance => if s.caller.Await? { AwaitInv(s); } else { DispatchInv(s); }
    case Work(t) =>
      if s.threads[t].pos.Draw? { DrawInv(s, t); }
      else if s.threads[t].pos.Compute? { ComputeInv(s, t); }
      else { ThreadStepInv(s, t); }
  }
}
