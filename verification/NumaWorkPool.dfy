/** NumaWorkPool as the object it is: the shared fields and the worker threads' positions are updated
    in place, and `ParallelFor` is driven by an arbitrary scheduler. */
module NumaWorkPools {
  import opened FlatPool
  import opened FlatPoolRuns

  class NumaWorkPool {
    var counter: nat            // counter_
    var currentGen: nat         // current_gen_
    var remaining: nat          // remaining_
    var start: nat              // start_
    var n: nat                  // n_
    var task: nat               // task_, by the number of the call that stored it
    var caller: Caller
    var workers: seq<Worker>
    // History variables, see FlatPool.State.
    var calls: seq<Call>
    var fin: set<nat>
    var log: multiset<(nat, nat)>

    function S(): State
      reads this
    {
      State(counter, currentGen, remaining, start, n, task, caller, workers, calls, fin, log)
    }

    ghost predicate Valid()
      reads this
    {
      Reachable(S())
    }

    constructor (nt: nat)
      requires Fits(Init(nt))
      ensures Valid() && S() == Init(nt)
    {
      counter, currentGen, remaining, start, n, task := 0, 0, 0, 0, 0, 0;
      caller := Idle;
      workers := seq(nt, _ => Worker(Outer, 0, 0, 0, 0));
      calls, fin, log := [Call(0, 0)], {}, multiset{};
      new;
      assert Feasible(Init(nt), []) && After(Init(nt), []) == Init(nt);
    }

    /** One turn of worker w in worker_loop; `ran` is the index whose task it called, if it called one. */
    method WorkerTurn(w: nat) returns (ran: multiset<nat>)
      requires WorkerEnabled(S(), w)
      modifies this
      ensures S() == WorkerStep(old(S()), w)
      ensures ran == if old(workers[w]).pc.Run? then multiset{old(workers[w]).pc.i} else multiset{}
    {
      var me := workers[w];
      ran := multiset{};
      match me.pc {
        case Outer =>
          me := me.(pc := Locking);
        case Locking =>
          me := Worker(Draw, currentGen, start, n, task);
        case Draw =>
          me := me.(pc := Drawn(counter));
          counter := counter + 1;
        case Drawn(t) =>
          if currentGen == me.gen {
            me := me.(pc := if Slot(t, me.start) >= me.n then Outer else Run(Slot(t, me.start)));
          } else {
            me := me.(pc := Stale(t));
          }
        case Stale(t) =>
          me := Worker(Draw, currentGen, start, n, task);
          me := me.(pc := if Slot(t, me.start) >= me.n then Outer else Run(Slot(t, me.start)));
        case Run(i) =>
          ran := multiset{i};
          log := log + multiset{(me.task, i)};
          me := me.(pc := Ran(i));
        case Ran(i) =>
          fin := fin + {i};
          remaining := (remaining as int - 1) % WORD;
          me := me.(pc := Draw);
      }
      workers := workers[w := me];
    }

    /** The next statement of the caller inside parallel_for. */
    method CallerTurn()
      requires Enabled(S(), Advance)
      modifies this
      ensures S() == CallerStep(old(S()))
    {
      match caller {
        case Bumping =>
          currentGen := currentGen + 1;
          caller := LoadingStart;
        case LoadingStart =>
          start := counter;
          calls, fin := calls + [Call(start, n)], {};
          caller := StoringRemaining;
        case StoringRemaining =>
          remaining := n;
          caller := Waiting;
        case Waiting =>
          caller := Idle;
      }
    }

    /** One action of anybody who can move, chosen arbitrarily; `ran` is the index whose task it called. */
    method AnyTurn() returns (moved: bool, ran: multiset<nat>, ghost a: Act)
      requires !caller.Idle?
      modifies this
      ensures moved ==> old(Enabled(S(), a)) && !a.Publish? && S() == Step(old(S()), a) && ran == RanBy(old(S()), a)
      ensures !moved ==> S() == old(S()) && ran == multiset{} && !Enabled(S(), Advance) && forall w: nat :: !WorkerEnabled(S(), w)
    {
      var movable := set w: nat | w < |workers| && WorkerEnabled(S(), w);
      var callerFirst: bool := *;
      moved, ran := true, multiset{};
      if Enabled(S(), Advance) && (callerFirst || movable == {}) {
        a := Advance;
        CallerTurn();
      } else if movable != {} {
        var w :| w in movable;
        a := Work(w);
        ran := WorkerTurn(w);
      } else {
        moved, a := false, Advance;
        assert forall w: nat :: w in movable <==> WorkerEnabled(S(), w);
      }
    }

    /** parallel_for(size, fn) under any scheduler.  It always comes to an end: either it returns and fn
        has run exactly once for each index in [0, size), or everybody sits the call out, which needs all
        workers to have been inside the ticket loop when it was published. */
    method ParallelFor(size: nat) returns (returned: bool, ran: multiset<nat>)
      requires Valid() && caller.Idle? && counter + 2 * size + 3 * |workers| < WORD
      modifies this
      ensures Valid()
      ensures returned ==> caller.Idle? && forall i: nat :: ran[i] == if i < size then 1 else 0
      ensures !returned ==> Stuck(S())
      ensures old(!AllInLoop(S())) || size <= 1 || |old(workers)| <= 1 ==> returned
      ensures forall i: nat :: ran[i] <= 1
    {
      ran := multiset{};
      if |workers| <= 1 || size <= 1 {
        for j := 0 to size
          invariant forall i: nat :: ran[i] == if i < j then 1 else 0
        {
          ran := ran + multiset{j};
        }
        return true, ran;
      }
      ghost var s0 := S();
      ghost var acts := [];
      OpenCall(s0, size);
      task, n, caller := currentGen + 1, size, Bumping;
      hide Open, Tally, Reachable, AllInLoop, Stuck, Measure, Enabled, Step, RanBy;
      while !caller.Idle?
        invariant Open(s0, size, S(), acts) && Tally(S(), s0.gen + 1, ran)
        decreases Phase(caller), Measure(S())
      {
        ghost var s := S();
        var moved, one, a := AnyTurn();
        if !moved {
          NobodyCanMove(s0, size, s, acts);
          TallyAtMostOnce(s, s0.gen + 1, ran);
          return false, ran;
        }
        OpenStep(s0, size, s, acts, a, ran);
        OpenProgress(s0, size, s, acts, a);
        ran, acts := ran + one, acts + [a];
      }
      RanAll(s0, size, S(), acts, ran);
      returned := true;
    }
  }

  // ----- What ParallelFor's loop keeps.

  /** s lies inside the call of `size` published in s0, and its tickets stay in range. */
  ghost predicate Bounded(s0: State, size: nat, s: State) {
    && s0.counter + 2 * size + 3 * |s0.workers| < WORD && |s0.calls| > 0
    && Inv(s) && During(s0, size, s) && |s.workers| == |s0.workers|
    && (if s.caller.Bumping? || s.caller.LoadingStart? then End(s) <= s0.counter else s.start <= s0.counter + |s.workers|)
  }

  /** s is where the call of `size` published in s0 has got to by `acts`. */
  ghost predicate Open(s0: State, size: nat, s: State, acts: seq<Act>) {
    && Reachable(s0) && Enabled(s0, Publish(size)) && Bounded(s0, size, s)
    && NoPublish(acts) && Feasible(s0, [Publish(size)] + acts) && After(s0, [Publish(size)] + acts) == s
  }

  /** `ran` is how often each index of call g has run, none twice. */
  ghost predicate Tally(s: State, g: nat, ran: multiset<nat>) {
    forall i: nat :: ran[i] == s.log[(g, i)] <= 1
  }

  function RanBy(s: State, a: Act): multiset<nat>
    requires Enabled(s, a)
  {
    if a.Work? && s.workers[a.w].pc.Run? then multiset{s.workers[a.w].pc.i} else multiset{}
  }

  lemma TallyAtMostOnce(s: State, g: nat, ran: multiset<nat>)
    requires Tally(s, g, ran)
    ensures forall i: nat :: ran[i] <= 1
  {
  }

  function Phase(c: Caller): nat {
    match c
    case Bumping => 4
    case LoadingStart => 3
    case StoringRemaining => 2
    case Waiting => 1
    case Idle => 0
  }

  lemma IdleDrewAll(s: State)
    requires Inv(s) && s.caller.Idle?
    ensures End(s) <= s.counter
  {
    if Size(s) > 0 {
      var last: nat := Size(s) - 1;
      assert last in s.fin;
    }
  }

  lemma NotYetRun(s: State, g: nat)
    requires LogInv(s) && g >= |s.calls|
    ensures forall i: nat :: s.log[(g, i)] == 0
  {
    forall i: nat ensures s.log[(g, i)] == 0 {
      assert s.log[(g, i)] == Expected(s, g, i);
    }
  }

  lemma OpenCall(s0: State, size: nat)
    requires Reachable(s0) && Enabled(s0, Publish(size)) && s0.counter + 2 * size + 3 * |s0.workers| < WORD
    ensures Open(s0, size, Step(s0, Publish(size)), [])
    ensures Tally(Step(s0, Publish(size)), s0.gen + 1, multiset{})
  {
    ReachableInv(s0);
    StepInv(s0, Publish(size));
    IdleDrewAll(s0);
    NotYetRun(s0, s0.gen + 1);
    assert [Publish(size)] + [] == [Publish(size)];
    assert Feasible(Step(s0, Publish(size)), []);
    assert After(s0, [Publish(size)]) == After(Step(s0, Publish(size)), []);
  }

  lemma BoundedFits(s0: State, size: nat, s: State)
    requires Bounded(s0, size, s)
    ensures Fits(s)
  {
  }

  lemma BoundedStep(s0: State, size: nat, s: State, a: Act)
    requires Bounded(s0, size, s) && Enabled(s, a) && !a.Publish?
    ensures Bounded(s0, size, Step(s, a))
  {
    BoundedFits(s0, size, s);
    StepInv(s, a);
    DuringRunOne(s0, size, s, a);
    hide Inv, WorkersInv, TicketsDistinct, FinInv, LogInv, RemainingInv, During;
    StepKeepsRange(s, a);
  }

  lemma DuringRunOne(s0: State, size: nat, s: State, a: Act)
    requires Inv(s) && During(s0, size, s) && Enabled(s, a) && !a.Publish? && |s0.calls| > 0
    ensures During(s0, size, Step(s, a))
  {
  }

  lemma StepKeepsRange(s: State, a: Act)
    requires Enabled(s, a) && !a.Publish?
    ensures |Step(s, a).workers| == |s.workers|
    ensures !s.caller.LoadingStart? ==> Step(s, a).start == s.start && Size(Step(s, a)) == Size(s)
    ensures s.caller.LoadingStart? && a.Advance? ==> Step(s, a).start == s.counter
    ensures a.Work? ==> Step(s, a).caller == s.caller && Step(s, a).start == s.start && Size(Step(s, a)) == Size(s)
  {
  }

  lemma OpenStep(s0: State, size: nat, s: State, acts: seq<Act>, a: Act, ran: multiset<nat>)
    requires Open(s0, size, s, acts) && Enabled(s, a) && !a.Publish? && !s.caller.Idle?
    requires Tally(s, s0.gen + 1, ran)
    ensures Open(s0, size, Step(s, a), acts + [a])
    ensures Tally(Step(s, a), s0.gen + 1, ran + RanBy(s, a))
  {
    var s' := Step(s, a);
    BoundedStep(s0, size, s, a);
    BoundedFits(s0, size, s');
    StepTally(s0, size, s, a, ran);
    hide Bounded, Step, Enabled;
    assert [a][1..] == [] && Feasible(s', []);
    Chain(s0, [Publish(size)] + acts, [a]);
    assert [Publish(size)] + (acts + [a]) == [Publish(size)] + acts + [a];
  }

  /** The termination measure of ParallelFor: caller phase first, then the workers' measure. */
  lemma OpenProgress(s0: State, size: nat, s: State, acts: seq<Act>, a: Act)
    requires Open(s0, size, s, acts) && Enabled(s, a) && !a.Publish? && !s.caller.Idle?
    ensures if a.Work? then Step(s, a).caller == s.caller && 0 <= Measure(Step(s, a)) < Measure(s)
            else Phase(Step(s, a).caller) < Phase(s.caller)
  {
    if a.Work? {
      BoundedFits(s0, size, s);
      StepInv(s, a);
      WorkerStepDecreases(s, a.w);
    }
  }

  lemma StepTally(s0: State, size: nat, s: State, a: Act, ran: multiset<nat>)
    requires Bounded(s0, size, s) && Enabled(s, a) && !a.Publish? && Tally(s, s0.gen + 1, ran)
    ensures Tally(Step(s, a), s0.gen + 1, ran + RanBy(s, a))
  {
    if a.Work? && s.workers[a.w].pc.Run? { RunIsFresh(s, a.w); }
    hide Inv;
  }

  lemma NobodyCanMove(s0: State, size: nat, s: State, acts: seq<Act>)
    requires Open(s0, size, s, acts) && !s.caller.Idle? && !Enabled(s, Advance)
    requires forall w: nat :: !WorkerEnabled(s, w)
    ensures Reachable(s) && Stuck(s) && AllInLoop(s0)
  {
    assert CanHang(s0, size);
    if !AllInLoop(s0) { OneWaiterSuffices(s0, size); }
    OpenReachable(s0, size, s, acts);
  }

  lemma OpenReachable(s0: State, size: nat, s: State, acts: seq<Act>)
    requires Open(s0, size, s, acts)
    ensures Reachable(s)
  {
    var nt: nat, before :| Fits(Init(nt)) && Feasible(Init(nt), before) && After(Init(nt), before) == s0;
    Chain(Init(nt), before, [Publish(size)] + acts);
  }

  lemma RanAll(s0: State, size: nat, s: State, acts: seq<Act>, ran: multiset<nat>)
    requires Open(s0, size, s, acts) && s.caller.Idle? && Tally(s, s0.gen + 1, ran)
    ensures Reachable(s) && forall i: nat :: ran[i] == if i < size then 1 else 0
  {
    ReachableInv(s0);
    NotYetRun(s0, s0.gen + 1);
    forall i: nat ensures ran[i] == if i < size then 1 else 0 {
      CallRunsEachIndexOnce(s0, size, acts, s0.gen + 1, i);
    }
    OpenReachable(s0, size, s, acts);
  }
}
