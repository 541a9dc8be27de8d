/** NumaWorkPool's sharded side as the object it is: shared fields and worker positions updated in place, and
    `ParallelForSharded` driven by an arbitrary scheduler. */
module ShardedWorkPools {
  import FlatPool
  import opened ShardPool
  import opened ShardPoolInv
  import opened ShardPoolRuns
  import opened ShardPoolProgress

  class ShardedWorkPool {
    var tickets: seq<nat>       // node_ticket_, one per possible shard
    var counts: seq<nat>        // node_nj_, sharded_call_ long
    var gen: nat                // current_gen_
    var remaining: nat          // remaining_
    var task: nat               // sharded_task_, by the number of the call that stored it
    var phase: Phase
    var workers: seq<Pinned>
    // History variables, see ShardPool.Shards.
    var fin: set<(nat, nat)>
    var log: multiset<(nat, nat, nat)>

    function S(): Shards
      reads this
    {
      Shards(tickets, counts, gen, remaining, task, phase, workers, fin, log)
    }

    constructor (nodes: seq<nat>, shards: nat)
      requires forall w :: 0 <= w < |nodes| ==> nodes[w] < shards
      ensures S() == Start(nodes, shards) && Inv(S())
    {
      tickets, counts, gen, remaining, task, phase := seq(shards, _ => 0), [], 0, 0, 0, Free;
      workers := seq(|nodes|, w requires 0 <= w < |nodes| => Pinned(nodes[w], Waits, 0, 0, 0));
      fin, log := {}, multiset{};
      new;
      StartInv(nodes, shards);
    }

    /** One turn of worker w in the sharded part of worker_loop; `ran` is the job it called, if it called one. */
    method WorkerTurn(w: nat) returns (ran: multiset<(nat, nat)>)
      requires WorkerReady(S(), w)
      modifies this
      ensures S() == TurnOf(old(S()), w) && ran == RanBy(old(S()), Turn(w))
    {
      if workers[w].at.Draws? || workers[w].at.Runs? || workers[w].at.RanJob? {
        ran := JobTurn(w);
      } else {
        AnchorTurn(w);
        ran := multiset{};
      }
    }

    /** Waking, anchoring, and checking or reconciling a ticket: only the worker's own variables change. */
    method AnchorTurn(w: nat)
      requires WorkerReady(S(), w) && !workers[w].at.Draws? && !workers[w].at.Runs? && !workers[w].at.RanJob?
      modifies this`workers
      ensures S() == TurnOf(old(S()), w)
    {
      var x := workers[w];
      match x.at {
        case Waits =>
          x := x.(at := Locks);
        case Locks =>
          x := Pinned(x.node, Bound, gen, x.nj, task);
        case Bound =>
          if x.node < |counts| {
            x := x.(at := Draws, nj := counts[x.node]);
          } else {
            x := x.(at := Waits);
          }
        case Has(t) =>
          if gen != x.gen {
            x := x.(at := Late(t));
          } else {
            x := x.(at := if t >= x.nj then Waits else Runs(t));
          }
        case Late(t) =>
          if x.node < |counts| {
            x := x.(gen := gen, nj := counts[x.node]);
            x := x.(at := if t >= x.nj then Waits else Runs(t));
          } else {
            x := x.(at := Waits);
          }
      }
      workers := workers[w := x];
    }

    /** Drawing a ticket, calling the function, counting down. */
    method JobTurn(w: nat) returns (ran: multiset<(nat, nat)>)
      requires WorkerReady(S(), w) && (workers[w].at.Draws? || workers[w].at.Runs? || workers[w].at.RanJob?)
      modifies this
      ensures S() == TurnOf(old(S()), w) && ran == RanBy(old(S()), Turn(w))
    {
      hide Total;
      var x := workers[w];
      ran := multiset{};
      match x.at {
        case Draws =>
          x := x.(at := Has(tickets[x.node]));
          tickets := tickets[x.node := tickets[x.node] + 1];
        case Runs(j) =>
          ran := multiset{(x.node, j)};
          log := log + multiset{(x.task, x.node, j)};
          x := x.(at := RanJob(j));
        case RanJob(j) =>
          fin := fin + {(x.node, j)};
          remaining := (remaining as int - 1) % FlatPool.WORD;
          x := x.(at := Draws);
      }
      workers := workers[w := x];
    }

    /** `++current_gen_` and the countdown's start, or the return of a call whose countdown is zero. */
    method CallerTurn()
      requires Ready(S(), Go)
      modifies this
      ensures S() == Do(old(S()), Go)
    {
      if phase.Reset? {
        gen := gen + 1;
        remaining := Total(counts);
        phase := Await;
      } else {
        phase := Free;
      }
    }

    /** One action of anybody who can move, chosen arbitrarily. */
    method AnyTurn() returns (moved: bool, ran: multiset<(nat, nat)>, ghost m: Move)
      requires !phase.Free?
      modifies this
      ensures moved ==> old(Ready(S(), m)) && !m.Open? && S() == Do(old(S()), m) && ran == RanBy(old(S()), m)
      ensures !moved ==> S() == old(S()) && ran == multiset{} && !Ready(S(), Go) && forall w: nat :: !WorkerReady(S(), w)
    {
      var movable := set w: nat | w < |workers| && WorkerReady(S(), w);
      var callerFirst: bool := *;
      moved, ran := true, multiset{};
      if Ready(S(), Go) && (callerFirst || movable == {}) {
        m := Go;
        CallerTurn();
      } else if movable != {} {
        var w :| w in movable;
        m := Turn(w);
        ran := WorkerTurn(w);
      } else {
        moved, m := false, Go;
        assert forall w: nat :: w in movable <==> WorkerReady(S(), w);
      }
    }

    /** parallel_for_sharded(counts, fn) under any scheduler, when that is safe to open: fn runs at most once
        for each (node, job), and exactly once for each if the call returns, which it does whenever every node
        with jobs has a worker outside its ticket loop.  `present` is node_present_; a call without nodes, a pool
        of one, a node without a worker and more nodes than there are counters are handled inline. */
    method ParallelForSharded(jobs: seq<nat>, present: set<nat>) returns (returned: bool, ran: multiset<(nat, nat)>)
      requires Inv(S()) && phase.Free?
      requires (jobs != [] && |workers| > 1 && |jobs| <= |tickets| && forall n: nat :: n < |jobs| ==> n in present)
        ==> Total(jobs) < FlatPool.WORD && SafeToOpen(S(), jobs)
      modifies this
      ensures Inv(S())
      ensures returned ==> phase.Free? && RunsEach(ran, jobs)
      ensures returned ==> forall n: nat, j: nat :: ran[(n, j)] == if n < |jobs| && j < jobs[n] then 1 else 0
      ensures !returned ==> Stuck(S()) && During(old(S()), jobs, S()) && phase.Await? && remaining > 0 && counts == jobs
      ensures forall p :: ran[p] <= 1
      ensures forall p: (nat, nat) :: ran[p] > 0 ==> IsJob(jobs, p.0, p.1)
      ensures jobs == [] || |old(workers)| <= 1 ==> returned && S() == old(S())
      ensures |jobs| > |old(tickets)| ==> returned && S() == old(S())
      ensures (exists n: nat :: n < |jobs| && n !in present) ==> returned && S() == old(S())
      ensures old(!SomeUnattended(S(), jobs)) ==> returned
      ensures
        var outside := old(forall w :: 0 <= w < |workers| ==> workers[w].at.Waits? || workers[w].at.Locks?);
        var staffed := old(forall n :: n in present ==> exists w :: 0 <= w < |workers| && workers[w].node == n);
        outside && staffed ==> returned
    {
      QuietMeans(workers, present);
      hide Inv, SafeToOpen, RunsEach, SomeUnattended, During, Stuck, Quiet;
      if jobs == [] || |workers| <= 1 || |jobs| > |tickets| || exists n: nat :: n < |jobs| && n !in present {
        ran := Serial(jobs);
        returned := true;
      } else {
        QuietIsAttended(S(), jobs, present);
        returned, ran := RunOnWorkers(jobs);
      }
      RunsEachMeans(ran, jobs);
    }

    /** Publishing the call and waiting for it. */
    method RunOnWorkers(jobs: seq<nat>) returns (returned: bool, ran: multiset<(nat, nat)>)
      requires Inv(S()) && phase.Free? && 0 < |jobs| <= |tickets| && Total(jobs) < FlatPool.WORD && SafeToOpen(S(), jobs)
      modifies this
      ensures Inv(S()) && (forall p :: ran[p] <= 1) && forall p: (nat, nat) :: ran[p] > 0 ==> IsJob(jobs, p.0, p.1)
      ensures returned ==> phase.Free? && RunsEach(ran, jobs)
      ensures !returned ==> Stuck(S()) && During(old(S()), jobs, S()) && old(SomeUnattended(S(), jobs))
      ensures !returned ==> phase.Await? && remaining > 0 && counts == jobs
    {
      ghost var s0 := S();
      hide Inv, SafeToOpen, RunsEach, Under, SomeUnattended, During, Stuck, Tally;
      OpenCall(s0, jobs);
      tickets, counts, task, fin, phase := ResetTickets(tickets, |jobs|), jobs, gen + 1, {}, Reset;
      returned, ran := AwaitJobs(s0, jobs);
    }

    /** The caller waits while the workers go on, until the call returns or nobody can move. */
    method AwaitJobs(ghost s0: Shards, jobs: seq<nat>) returns (returned: bool, ran: multiset<(nat, nat)>)
      requires Under(s0, jobs, S()) && Tally(s0, S(), multiset{})
      modifies this
      ensures Inv(S()) && (forall p :: ran[p] <= 1) && forall p: (nat, nat) :: ran[p] > 0 ==> IsJob(jobs, p.0, p.1)
      ensures returned ==> phase.Free? && RunsEach(ran, jobs)
      ensures !returned ==> Stuck(S()) && During(s0, jobs, S()) && SomeUnattended(s0, jobs)
      ensures !returned ==> phase.Await? && remaining > 0 && counts == jobs
    {
      hide Inv, During, RunsEach, Do, SomeUnattended, Stuck, Tally, Under, RanBy, Measure, Ready, WorkerReady;
      ran := multiset{};
      UnderShape(s0, jobs, S());
      while !phase.Free?
        invariant Under(s0, jobs, S()) && Tally(s0, S(), ran) && |counts| <= |tickets|
        decreases PhaseRank(phase), Measure(S())
      {
        ghost var s := S();
        var moved, one, m := AnyTurn();
        if !moved {
          StuckIsUnattended(s0, jobs, s);
          TallyBound(s0, jobs, s, ran);
          return false, ran;
        }
        UnderStep(s0, jobs, s, m, ran);
        UnderShape(s0, jobs, S());
        ran := ran + one;
      }
      TallyBound(s0, jobs, S(), ran);
      returned := true;
    }

    /** Any number of turns of the workers between two calls: they run nothing. */
    method WorkersSettle()
      requires Inv(S()) && phase.Free?
      modifies this
      ensures Inv(S()) && phase.Free? && log == old(log)
    {
      hide Inv, TurnOf, Do;
      InvShape(S());
      var more: bool := *;
      while more
        invariant Inv(S()) && phase.Free? && log == old(log) && |counts| <= |tickets|
        decreases more, Measure(S())
      {
        var movable := set w: nat | w < |workers| && WorkerReady(S(), w);
        if movable == {} {
          more := false;
        } else {
          var w :| w in movable;
          ghost var s := S();
          FreeTurn(s, w);
          var ran := WorkerTurn(w);
          more := *;
        }
      }
    }

    /** The fallback: every node's jobs in order, on the calling thread. */
    method Serial(jobs: seq<nat>) returns (ran: multiset<(nat, nat)>)
      ensures RunsEach(ran, jobs)
      ensures forall p :: ran[p] <= 1
      ensures forall p: (nat, nat) :: ran[p] > 0 ==> IsJob(jobs, p.0, p.1)
    {
      ran := multiset{};
      for n := 0 to |jobs|
        invariant forall p: (nat, nat) :: ran[p] == if p.0 < n && IsJob(jobs, p.0, p.1) then 1 else 0
      {
        for j := 0 to jobs[n]
          invariant forall p: (nat, nat) :: ran[p] == if (p.0 < n && IsJob(jobs, p.0, p.1)) || (p.0 == n && p.1 < j) then 1 else 0
        {
          ran := ran + multiset{(n, j)};
        }
      }
      assert forall n: nat, j: nat :: (n, j).0 == n && (n, j).1 == j;
    }
  }

  /** Every worker is outside its ticket loop, and every node in `present` has one. */
  ghost predicate Quiet(workers: seq<Pinned>, present: set<nat>) {
    && (forall w :: 0 <= w < |workers| ==> workers[w].at.Waits? || workers[w].at.Locks?)
    && (forall n :: n in present ==> exists w :: 0 <= w < |workers| && workers[w].node == n)
  }

  lemma QuietMeans(workers: seq<Pinned>, present: set<nat>)
    ensures
      var outside := forall w :: 0 <= w < |workers| ==> workers[w].at.Waits? || workers[w].at.Locks?;
      var staffed := forall n :: n in present ==> exists w :: 0 <= w < |workers| && workers[w].node == n;
      Quiet(workers, present) <==> outside && staffed
  {
  }

  lemma QuietIsAttended(s: Shards, jobs: seq<nat>, present: set<nat>)
    requires forall n: nat :: n < |jobs| ==> n in present
    ensures Quiet(s.workers, present) ==> !SomeUnattended(s, jobs)
  {
    if Quiet(s.workers, present) {
      forall n: nat | n < |jobs| ensures !Unattended(s, n) {
        assert n in present;
        var w :| 0 <= w < |s.workers| && s.workers[w].node == n;
        assert !InLoop(s.workers[w]);
      }
    }
  }

  lemma RunsEachMeans(ran: multiset<(nat, nat)>, jobs: seq<nat>)
    ensures RunsEach(ran, jobs) <==> forall n: nat, j: nat :: ran[(n, j)] == if n < |jobs| && j < jobs[n] then 1 else 0
  {
    assert forall n: nat, j: nat :: IsJob(jobs, n, j) <==> n < |jobs| && j < jobs[n];
  }

  ghost predicate RunsEach(ran: multiset<(nat, nat)>, jobs: seq<nat>) {
    forall n: nat, j: nat :: ran[(n, j)] == if IsJob(jobs, n, j) then 1 else 0
  }

  function RanBy(s: Shards, m: Move): multiset<(nat, nat)>
    requires Ready(s, m)
  {
    if m.Turn? && s.workers[m.w].at.Runs? then multiset{(s.workers[m.w].node, s.workers[m.w].at.j)} else multiset{}
  }

  lemma InvShape(s: Shards)
    requires Inv(s)
    ensures |s.counts| <= |s.tickets|
  {
  }

  lemma FreeTurn(s: Shards, w: nat)
    requires Inv(s) && s.phase.Free? && WorkerReady(s, w)
    ensures Inv(TurnOf(s, w)) && TurnOf(s, w).phase.Free? && TurnOf(s, w).log == s.log
    ensures |TurnOf(s, w).counts| <= |TurnOf(s, w).tickets| && Measure(TurnOf(s, w)) < Measure(s)
  {
    MoveInv(s, Turn(w));
    TurnDecreases(s, w);
    if s.workers[w].at.Runs? {
      BusyIsCurrent(s, w);
      FreeIsDone(s, s.workers[w].node, s.workers[w].at.j);
    }
  }

  // ----- What ParallelForSharded's loop keeps.

  /** s is where the call `jobs` opened in s0 has got to; if its nodes were attended, they are still served. */
  ghost predicate Under(s0: Shards, jobs: seq<nat>, s: Shards) {
    && Inv(s0) && Ready(s0, Open(jobs)) && Inv(s) && During(s0, jobs, s) && |s.counts| <= |s.tickets|
    && (SomeUnattended(s0, jobs) || s.phase.Free? || Served(s))
  }

  /** `ran` is how often each job of the call has run. */
  ghost predicate Tally(s0: Shards, s: Shards, ran: multiset<(nat, nat)>) {
    var g := s0.gen + 1;
    forall n: nat, j: nat :: ran[(n, j)] == s.log[(g, n, j)]
  }

  function PhaseRank(p: Phase): nat {
    match p
    case Reset => 2
    case Await => 1
    case Free => 0
  }

  lemma OpenCall(s0: Shards, jobs: seq<nat>)
    requires Inv(s0) && Ready(s0, Open(jobs)) && SafeToOpen(s0, jobs)
    ensures Under(s0, jobs, Do(s0, Open(jobs))) && Tally(s0, Do(s0, Open(jobs)), multiset{})
  {
    MoveInv(s0, Open(jobs));
    if !SomeUnattended(s0, jobs) { AttendedIsServed(s0, jobs); }
    assert During(s0, jobs, Do(s0, Open(jobs)));
    hide SomeUnattended, Served;
    var g := s0.gen + 1;
    assert forall n: nat, j: nat :: s0.log[(g, n, j)] == 0;
  }

  lemma UnderStep(s0: Shards, jobs: seq<nat>, s: Shards, m: Move, ran: multiset<(nat, nat)>)
    requires Under(s0, jobs, s) && Ready(s, m) && !m.Open? && !s.phase.Free? && Tally(s0, s, ran)
    ensures Under(s0, jobs, Do(s, m)) && Tally(s0, Do(s, m), ran + RanBy(s, m))
    ensures if m.Turn? then Do(s, m).phase == s.phase && Measure(Do(s, m)) < Measure(s)
            else PhaseRank(Do(s, m).phase) < PhaseRank(s.phase)
  {
    hide SomeUnattended, Served;
    UnderMove(s0, jobs, s, m);
    StepTally(s0, jobs, s, m, ran);
    if m.Turn? { TurnDecreases(s, m.w); }
  }

  lemma UnderMove(s0: Shards, jobs: seq<nat>, s: Shards, m: Move)
    requires Under(s0, jobs, s) && Ready(s, m) && !m.Open? && !s.phase.Free?
    ensures Under(s0, jobs, Do(s, m))
  {
    MoveInv(s, m);
    DuringMove(s0, jobs, s, m);
    hide Inv, During, SomeUnattended;
    if Served(s) && !(s.phase.Await? && m.Go?) { ServedKept(s, m); }
    hide Served;
    SameShape(s, m);
  }

  lemma SameShape(s: Shards, m: Move)
    requires Ready(s, m) && !m.Open?
    ensures Do(s, m).counts == s.counts && |Do(s, m).tickets| == |s.tickets| && (s.phase.Await? && m.Go? ==> Do(s, m).phase.Free?)
  {
  }

  lemma DuringMove(s0: Shards, jobs: seq<nat>, s: Shards, m: Move)
    requires Inv(s) && During(s0, jobs, s) && Ready(s, m) && !m.Open?
    ensures During(s0, jobs, Do(s, m))
  {
    forall g: nat, n: nat, j: nat | g <= s0.gen ensures Do(s, m).log[(g, n, j)] == s0.log[(g, n, j)] {
      MoveLog(s, m, g, n, j);
    }
  }

  lemma StepTally(s0: Shards, jobs: seq<nat>, s: Shards, m: Move, ran: multiset<(nat, nat)>)
    requires Under(s0, jobs, s) && Ready(s, m) && !m.Open? && Tally(s0, s, ran)
    ensures Tally(s0, Do(s, m), ran + RanBy(s, m))
  {
    if m.Turn? && s.workers[m.w].at.Runs? { BusyIsCurrent(s, m.w); }
    hide Inv, Served, SomeUnattended;
  }

  lemma TallyBound(s0: Shards, jobs: seq<nat>, s: Shards, ran: multiset<(nat, nat)>)
    requires Under(s0, jobs, s) && Tally(s0, s, ran)
    ensures forall p :: ran[p] <= 1
    ensures forall p: (nat, nat) :: ran[p] > 0 ==> IsJob(jobs, p.0, p.1)
    ensures s.phase.Free? ==> RunsEach(ran, jobs)
    ensures Inv(s)
  {
    forall p: (nat, nat) ensures ran[p] <= 1 && (ran[p] > 0 ==> IsJob(jobs, p.0, p.1)) {
      assert p == (p.0, p.1);
      LoggedIsJob(s, p.0, p.1);
    }
    if s.phase.Free? {
      forall n: nat, j: nat ensures ran[(n, j)] == if IsJob(jobs, n, j) then 1 else 0 { FreeIsDone(s, n, j); }
    }
  }

  lemma LoggedIsJob(s: Shards, n: nat, j: nat)
    requires Inv(s)
    ensures s.log[(s.task, n, j)] <= 1 && (s.log[(s.task, n, j)] > 0 ==> IsJob(s.counts, n, j))
  {
    if JustRan(s, n, j) {
      var w :| 0 <= w < |s.workers| && s.workers[w].node == n && s.workers[w].at == RanJob(j);
      BusyIsCurrent(s, w);
    }
  }

  lemma UnderShape(s0: Shards, jobs: seq<nat>, s: Shards)
    requires Under(s0, jobs, s)
    ensures |s.counts| <= |s.tickets|
  {
  }

  lemma StuckIsUnattended(s0: Shards, jobs: seq<nat>, s: Shards)
    requires Under(s0, jobs, s) && !s.phase.Free? && !Ready(s, Go) && forall w: nat :: !WorkerReady(s, w)
    ensures SomeUnattended(s0, jobs) && Stuck(s) && During(s0, jobs, s)
    ensures s.phase.Await? && s.remaining > 0 && s.counts == jobs
  {
    if Served(s) {
      var w := NeverStuck(s);
      assert false;
    }
  }
}
