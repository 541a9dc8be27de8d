/** What the flat pool protocol guarantees over whole runs: exactly-once execution, silence of
    finished calls, and exactly when a call can be left hanging. */
module FlatPoolRuns {
  import opened FlatPool

  lemma StepInv(s: State, a: Act)
    requires Inv(s) && Fits(s) && Enabled(s, a)
    ensures Inv(Step(s, a))
  {
    match a
    case Publish(size) => PublishInv(s, size);
    case Advance =>
      match s.caller {
        case Bumping => BumpInv(s);
        case LoadingStart => LoadStartInv(s);
        case StoringRemaining => StoreRemainingInv(s);
        case Waiting => ReturnInv(s);
      }
    case Work(w) =>
      match s.workers[w].pc {
        case Outer => WakeOrAnchor(s, w);
        case Locking => WakeOrAnchor(s, w);
        case Draw => DrawTicket(s, w);
        case Drawn(_) => CheckTicket(s, w);
        case Stale(_) => ReAnchor(s, w);
        case Run(_) => ExecuteTask(s, w);
        case Ran(_) => FinishTask(s, w);
      }
  }

  lemma {:induction false} RunInv(s: State, acts: seq<Act>)
    requires Inv(s) && Fits(s) && Feasible(s, acts)
    ensures Inv(After(s, acts)) && Fits(After(s, acts))
    decreases |acts|
  {
    hide Inv, Fits;
    if acts != [] {
      StepInv(s, acts[0]);
      RunInv(Step(s, acts[0]), acts[1..]);
    }
  }

  lemma ReachableInv(s: State)
    requires Reachable(s)
    ensures Inv(s) && Fits(s)
  {
    var nt: nat, acts :| Fits(Init(nt)) && Feasible(Init(nt), acts) && After(Init(nt), acts) == s;
    InitInv(nt);
    RunInv(Init(nt), acts);
  }

  /** No ticket past the range is drawn more than once per worker. */
  lemma TicketBound(s: State)
    requires Reachable(s) && !s.caller.Bumping? && !s.caller.LoadingStart?
    ensures s.counter - s.start <= s.n + |s.workers|
  {
    ReachableInv(s);
  }

  // ----- Exactly once.

  /** Call g has returned. */
  predicate Closed(s: State, g: nat) {
    g < Last(s) || (g == Last(s) && !s.caller.Waiting? && !s.caller.StoringRemaining?)
  }

  lemma ClosedLog(s: State, g: nat, i: nat)
    requires Inv(s) && Closed(s, g)
    ensures s.log[(g, i)] == if g >= 1 && i < s.calls[g].n then 1 else 0
  {
    assert s.log[(g, i)] == Expected(s, g, i);
    if g == Last(s) && JustRan(s.workers, i) {
      var w :| 0 <= w < |s.workers| && s.workers[w].pc == Ran(i);
      assert WorkerInv(s, s.workers[w]);
    }
  }

  /** At rest, every index of every call so far has run exactly once, with that call's task, and nothing else has. */
  lemma ExactlyOnceAtRest(s: State, g: nat, i: nat)
    requires Reachable(s) && s.caller.Idle?
    ensures s.log[(g, i)] == if 1 <= g < |s.calls| && i < s.calls[g].n then 1 else 0
  {
    ReachableInv(s);
    if g <= s.gen {
      ClosedLog(s, g, i);
    } else {
      assert s.log[(g, i)] == Expected(s, g, i);
    }
  }

  /** No task of a returned call ever runs later, whatever generation its holder was bound to. */
  lemma FinishedCallsStaySilent(s: State, acts: seq<Act>, g: nat, i: nat)
    requires Reachable(s) && Feasible(s, acts) && Closed(s, g)
    ensures After(s, acts).log[(g, i)] == s.log[(g, i)]
  {
    ReachableInv(s);
    ClosedRun(s, acts, g, i);
  }

  lemma {:induction false} ClosedRun(s: State, acts: seq<Act>, g: nat, i: nat)
    requires Inv(s) && Fits(s) && Feasible(s, acts) && Closed(s, g)
    ensures After(s, acts).log[(g, i)] == s.log[(g, i)]
    decreases |acts|
  {
    if acts != [] {
      var s' := Step(s, acts[0]);
      StepInv(s, acts[0]);
      ClosedLog(s, g, i);
      assert s.calls <= s'.calls && Closed(s', g);
      ClosedLog(s', g, i);
      hide Inv, Fits;
      ClosedRun(s', acts[1..], g, i);
    }
  }

  predicate NoPublish(acts: seq<Act>) {
    forall j :: 0 <= j < |acts| ==> !acts[j].Publish?
  }

  /** Call `s.gen + 1` of `size` indices, opened in `base`, has got as far as s. */
  ghost predicate During(base: State, size: nat, s: State) {
    match s.caller
    case Idle => s.gen == base.gen + 1 && |s.calls| == |base.calls| + 1 && s.calls[..|base.calls|] == base.calls && Size(s) == size
    case Bumping => s.gen == base.gen && s.calls == base.calls && s.n == size
    case LoadingStart => s.gen == base.gen + 1 && s.calls == base.calls && s.n == size
    case _ => s.gen == base.gen + 1 && |s.calls| == |base.calls| + 1 && s.calls[..|base.calls|] == base.calls && Size(s) == size
  }

  lemma {:induction false} DuringRun(base: State, size: nat, s: State, acts: seq<Act>)
    requires Inv(s) && Fits(s) && Feasible(s, acts) && NoPublish(acts) && During(base, size, s) && |base.calls| > 0
    ensures During(base, size, After(s, acts))
    decreases |acts|
  {
    if acts != [] {
      StepInv(s, acts[0]);
      assert During(base, size, Step(s, acts[0]));
      hide Inv, Fits, During;
      DuringRun(base, size, Step(s, acts[0]), acts[1..]);
    }
  }

  /** One whole call, in any interleaving: between publish and return the log gains exactly one
      execution of each index in [0, size), all with the new call's task. */
  lemma CallRunsEachIndexOnce(s: State, size: nat, acts: seq<Act>, g: nat, i: nat)
    requires Reachable(s) && Enabled(s, Publish(size)) && NoPublish(acts)
    requires Feasible(s, [Publish(size)] + acts)
    requires After(s, [Publish(size)] + acts).caller.Idle?
    ensures After(s, [Publish(size)] + acts).log[(g, i)]
         == s.log[(g, i)] + if g == s.gen + 1 && i < size then 1 else 0
  {
    ReachableInv(s);
    var s1 := Step(s, Publish(size));
    assert ([Publish(size)] + acts)[1..] == acts;
    StepInv(s, Publish(size));
    var s' := After(s1, acts);
    DuringRun(s, size, s1, acts);
    RunInv(s1, acts);
    assert s.log[(g, i)] == Expected(s, g, i);
    assert s'.log[(g, i)] == Expected(s', g, i);
    if g <= s.gen {
      ClosedLog(s, g, i);
      ClosedLog(s', g, i);
    } else if g == s.gen + 1 {
      ClosedLog(s', g, i);
    }
  }

  // ----- Progress.

  predicate InLoop(x: Worker) {
    !x.pc.Outer? && !x.pc.Locking?
  }

  /** Somebody draws for the live call, or its whole range is drawn. */
  ghost predicate Joined(s: State) {
    s.counter >= End(s) || exists w :: 0 <= w < |s.workers| && InLoop(s.workers[w]) && s.workers[w].gen == Last(s)
  }

  /** A worker outside the ticket loop that has yet to see the generation `gen`. */
  ghost predicate Coming(s: State, gen: nat) {
    exists w :: 0 <= w < |s.workers| && !InLoop(s.workers[w]) && s.workers[w].gen < gen
  }

  ghost predicate Attended(s: State) {
    match s.caller
    case Idle => true
    case Bumping => Coming(s, s.gen + 1)
    case Waiting => Joined(s) || Coming(s, s.gen)
    case _ => Coming(s, s.gen)
  }

  lemma ComingKept(s: State, a: Act, v: nat)
    requires Inv(s) && Enabled(s, a) && v < |s.workers| && !InLoop(s.workers[v]) && s.workers[v].gen < s.gen
    ensures var x := Step(s, a).workers[v]; (x.gen < s.gen && !InLoop(x)) || (a == Work(v) && x == Snapshot(s) && !Locked(s))
  {
  }

  lemma JoinedKept(s: State, a: Act)
    requires Inv(s) && Enabled(s, a) && a.Work? && Joined(s) && s.caller.Waiting?
    ensures Joined(Step(s, a))
  {
    if s.counter < End(s) {
      var v :| 0 <= v < |s.workers| && InLoop(s.workers[v]) && s.workers[v].gen == Last(s);
      assert WorkerInv(s, s.workers[v]);
      hide Inv;
      if a == Work(v) {
        JoinerStays(s, v);
      }
      assert InLoop(Step(s, a).workers[v]) && Step(s, a).workers[v].gen == Last(s);
    }
  }

  lemma JoinerStays(s: State, v: nat)
    requires WorkerEnabled(s, v) && WorkerInv(s, s.workers[v]) && s.counter < End(s)
    requires InLoop(s.workers[v]) && s.workers[v].gen == Last(s) && s.start == s.workers[v].start && s.gen == Last(s)
    ensures InLoop(WorkerStep(s, v).workers[v]) && WorkerStep(s, v).workers[v].gen == Last(s)
  {
    if s.workers[v].pc.Drawn? && Slot(s.workers[v].pc.ticket, s.start) >= Size(s) {
      SlotOut(s.workers[v].pc.ticket, s.start, Size(s));
      assert false;
    }
  }

  lemma SlotOut(t: nat, start: nat, n: nat)
    requires t >= start && Slot(t, start) >= n
    ensures t >= start + n
  {
    assert (t - start) % WORD <= t - start;
  }

  lemma AttendedKept(s: State, a: Act)
    requires Inv(s) && Enabled(s, a) && Attended(s) && !a.Publish? && !s.caller.Idle?
    ensures Attended(Step(s, a))
  {
    if s.caller.Bumping? {
      BumpAttended(s, a);
    } else if Coming(s, s.gen) {
      ComingAttended(s, a);
    } else if a.Work? {
      JoinedKept(s, a);
    }
  }

  lemma BumpAttended(s: State, a: Act)
    requires Inv(s) && Enabled(s, a) && Coming(s, s.gen + 1) && s.caller.Bumping?
    ensures Attended(Step(s, a))
  {
    var v :| 0 <= v < |s.workers| && !InLoop(s.workers[v]) && s.workers[v].gen < s.gen + 1;
    assert !InLoop(Step(s, a).workers[v]) && Step(s, a).workers[v].gen == s.workers[v].gen;
  }

  lemma ComingAttended(s: State, a: Act)
    requires Inv(s) && Enabled(s, a) && Coming(s, s.gen) && !a.Publish? && !s.caller.Idle? && !s.caller.Bumping?
    ensures Attended(Step(s, a))
  {
    var v :| 0 <= v < |s.workers| && !InLoop(s.workers[v]) && s.workers[v].gen < s.gen;
    ComingKept(s, a, v);
    assert InLoop(Step(s, a).workers[v]) ==> Step(s, a).workers[v].gen == Last(Step(s, a));
  }

  /** A drawn-out range leaves its unfinished indices in some worker's hands. */
  lemma UnfinishedIsHeld(s: State)
    requires Inv(s) && s.caller.Waiting? && s.remaining > 0 && s.counter >= End(s)
    ensures exists w :: 0 <= w < |s.workers| && InLoop(s.workers[w])
  {
    FullIffCard(s.fin, Size(s));
    var i: nat :| i < Size(s) && i !in s.fin;
    assert SomeoneHolds(s.workers, s.start + i);
    var w :| 0 <= w < |s.workers| && HoldsTicket(s.workers[w], s.start + i);
    assert InLoop(s.workers[w]);
  }

  /** An attended call always has a next step until it has returned. */
  lemma AttendedNeverStuck(s: State)
    requires Inv(s) && Attended(s) && !s.caller.Idle?
    ensures exists a :: Enabled(s, a) && !a.Publish?
  {
    if s.caller.Waiting? && s.remaining > 0 {
      if s.counter >= End(s) { UnfinishedIsHeld(s); }
      var w :| 0 <= w < |s.workers| && (InLoop(s.workers[w]) || s.workers[w].gen < s.gen);
      assert Enabled(s, Work(w));
    } else {
      assert Enabled(s, Advance);
    }
  }

  // ----- A measure that every worker step lowers: a waiting call cannot be delayed forever.

  function Weight(x: Worker, gen: nat): nat {
    match x.pc
    case Outer => if x.gen == gen then 0 else 9
    case Locking => 8
    case Draw => 1
    case Drawn(_) => 7
    case Stale(_) => 6
    case Run(_) => 5
    case Ran(_) => 4
  }

  function Weights(ws: seq<Worker>, gen: nat): nat {
    if ws == [] then 0 else Weight(ws[0], gen) + Weights(ws[1..], gen)
  }

  function Measure(s: State): int {
    10 * (End(s) + |s.workers| - s.counter) + Weights(s.workers, s.gen)
  }

  lemma {:induction false} WeightsPut(ws: seq<Worker>, w: nat, x: Worker, gen: nat)
    requires w < |ws|
    ensures Weights(ws[w := x], gen) + Weight(ws[w], gen) == Weights(ws, gen) + Weight(x, gen)
  {
    if w > 0 {
      WeightsPut(ws[1..], w - 1, x, gen);
      assert ws[w := x][1..] == ws[1..][w - 1 := x];
    } else {
      assert ws[w := x][1..] == ws[1..];
    }
  }

  /** Every step but a draw moves its worker to a lighter position. */
  lemma StepWeight(s: State, w: nat)
    requires WorkerEnabled(s, w) && (s.workers[w].pc.Stale? || s.workers[w].pc.Locking? ==> s.workers[w].gen < s.gen)
    ensures var s' := WorkerStep(s, w);
      && s'.workers == s.workers[w := s'.workers[w]] && s'.gen == s.gen && s'.start == s.start && s'.calls == s.calls
      && Weight(s'.workers[w], s.gen) + 10 * s.counter < Weight(s.workers[w], s.gen) + 10 * s'.counter
  {
  }

  lemma WorkerStepDecreases(s: State, w: nat)
    requires Inv(s) && WorkerEnabled(s, w)
    ensures Measure(WorkerStep(s, w)) < Measure(s)
  {
    assert WorkerInv(s, s.workers[w]);
    StepWeight(s, w);
    hide Inv, WorkerInv, WorkerStep, Weight;
    WeightsPut(s.workers, w, WorkerStep(s, w).workers[w], s.gen);
  }

  /** However the workers are scheduled, they take at most Measure(s) steps before the caller has to move. */
  lemma {:induction false} WorkersMustStop(s: State, acts: seq<Act>)
    requires Inv(s) && Fits(s) && Feasible(s, acts) && forall j :: 0 <= j < |acts| ==> acts[j].Work?
    ensures |acts| <= Measure(s)
    decreases |acts|
  {
    if acts == [] {
      assert Measure(s) >= 0;
    } else {
      WorkerStepDecreases(s, acts[0].w);
      StepInv(s, acts[0]);
      hide Inv, Fits, Measure;
      WorkersMustStop(Step(s, acts[0]), acts[1..]);
    }
  }

  // ----- Exactly when a call can hang.

  /** The caller waits, work is left, and no action of anybody is enabled. */
  ghost predicate Stuck(s: State) {
    s.caller.Waiting? && s.remaining > 0 && forall a :: !Enabled(s, a)
  }

  /** Some interleaving of the call of `size` published in s ends stuck. */
  ghost predicate CanHang(s: State, size: nat)
    requires Enabled(s, Publish(size))
  {
    exists acts ::
      NoPublish(acts) && Feasible(s, [Publish(size)] + acts) && Stuck(After(s, [Publish(size)] + acts))
  }

  /** Every worker is still inside the ticket loop. */
  predicate AllInLoop(s: State) {
    forall w :: 0 <= w < |s.workers| ==> InLoop(s.workers[w])
  }

  lemma {:induction false} AttendedRun(s: State, acts: seq<Act>)
    requires Inv(s) && Fits(s) && Feasible(s, acts) && NoPublish(acts) && Attended(s) && !s.caller.Idle?
    ensures !Stuck(After(s, acts))
    decreases |acts|
  {
    if acts == [] {
      AttendedNeverStuck(s);
    } else {
      var s' := Step(s, acts[0]);
      StepInv(s, acts[0]);
      AttendedKept(s, acts[0]);
      hide Inv, Fits, Attended;
      if s'.caller.Idle? {
        IdleRun(s', acts[1..]);
      } else {
        AttendedRun(s', acts[1..]);
      }
    }
  }

  lemma {:induction false} IdleRun(s: State, acts: seq<Act>)
    requires s.caller.Idle? && Feasible(s, acts) && NoPublish(acts)
    ensures After(s, acts).caller.Idle?
    decreases |acts|
  {
    if acts != [] {
      IdleRun(Step(s, acts[0]), acts[1..]);
    }
  }

  /** One worker outside the loop when the call is published is enough: the call cannot hang. */
  lemma OneWaiterSuffices(s: State, size: nat)
    requires Reachable(s) && Enabled(s, Publish(size)) && !AllInLoop(s)
    ensures !CanHang(s, size)
  {
    ReachableInv(s);
    var s1 := Step(s, Publish(size));
    StepInv(s, Publish(size));
    var w :| 0 <= w < |s.workers| && !InLoop(s.workers[w]);
    assert WorkerInv(s, s.workers[w]) && s1.workers[w] == s.workers[w];
    assert Coming(s1, s1.gen + 1);
    forall acts | NoPublish(acts) && Feasible(s, [Publish(size)] + acts)
      ensures !Stuck(After(s, [Publish(size)] + acts))
    {
      assert ([Publish(size)] + acts)[1..] == acts;
      AttendedRun(s1, acts);
    }
  }

  lemma {:induction false} Chain(s: State, a: seq<Act>, b: seq<Act>)
    requires Feasible(s, a) && Feasible(After(s, a), b)
    ensures Feasible(s, a + b) && After(s, a + b) == After(After(s, a), b)
    decreases |a|
  {
    hide Enabled, Step, Fits;
    if a == [] {
      assert a + b == b;
    } else {
      Chain(Step(s, a[0]), a[1..], b);
      assert (a + b)[0] == a[0] && (a + b)[1..] == a[1..] + b;
    }
  }

  /** Workers 0..k-1 each take their next ticket while the publication has not read `counter_` yet. */
  lemma {:induction false} EveryoneDraws(s: State, k: nat) returns (acts: seq<Act>)
    requires k <= |s.workers| && s.counter + s.n + |s.workers| + k < WORD
    requires forall w :: 0 <= w < |s.workers| ==> InLoop(s.workers[w]) && !Busy(s.workers[w])
    ensures Feasible(s, acts) && NoPublish(acts)
    ensures var e := After(s, acts); e == s.(workers := e.workers, counter := e.counter) && e.counter <= s.counter + k
    ensures |After(s, acts).workers| == |s.workers| && After(s, acts).counter >= s.counter
    ensures forall w :: 0 <= w < |s.workers| ==> var x := After(s, acts).workers[w];
      if w < k then x.pc.Drawn? || x.pc.Stale? else x == s.workers[w]
    ensures forall w :: 0 <= w < |s.workers| ==> var x := After(s, acts).workers[w];
      x.gen == s.workers[w].gen && (x.pc.Drawn? && x.pc != s.workers[w].pc ==> x.pc.ticket < After(s, acts).counter)
      && (x.pc.Stale? ==> x == s.workers[w])
  {
    if k == 0 {
      acts := [];
    } else {
      var before := EveryoneDraws(s, k - 1);
      var m := After(s, before);
      if m.workers[k - 1].pc.Draw? {
        var one := [Work(k - 1)];
        assert one[1..] == [] && Feasible(Step(m, one[0]), []);
        Chain(s, before, one);
        acts := before + one;
      } else {
        acts := before;
      }
    }
  }

  /** Workers 0..k-1 re-read the generation, re-anchor with a ticket below the new range, and sit the call out. */
  lemma {:induction false} EveryoneSitsOut(s: State, k: nat) returns (acts: seq<Act>)
    requires k <= |s.workers| && Fits(s) && s.caller.Waiting? && s.start <= s.counter
    requires forall w :: 0 <= w < |s.workers| ==> var x := s.workers[w];
      (x.pc.Drawn? || x.pc.Stale?) && x.pc.ticket < s.start && x.gen != s.gen
    ensures Feasible(s, acts) && NoPublish(acts)
    ensures After(s, acts) == s.(workers := After(s, acts).workers) && |After(s, acts).workers| == |s.workers|
    ensures forall w :: 0 <= w < |s.workers| ==> var x := After(s, acts).workers[w];
      if w < k then x.pc == Outer && x.gen == s.gen else x == s.workers[w]
  {
    if k == 0 {
      acts := [];
    } else {
      var before := EveryoneSitsOut(s, k - 1);
      var m := After(s, before);
      SlotIs(m.workers[k - 1].pc.ticket, s.start);
      var last := Sit(m, k - 1);
      Chain(s, before, last);
      acts := before + last;
    }
  }

  lemma Sit(s: State, w: nat) returns (acts: seq<Act>)
    requires w < |s.workers| && Fits(s) && s.caller.Waiting?
    requires s.workers[w].pc.Drawn? || s.workers[w].pc.Stale?
    requires s.workers[w].gen != s.gen && Slot(s.workers[w].pc.ticket, s.start) >= s.n
    ensures Feasible(s, acts) && NoPublish(acts)
    ensures After(s, acts) == Put(s, w, Snapshot(s).(pc := Outer))
  {
    var s1 := Step(s, Work(w));
    if s.workers[w].pc.Stale? {
      acts := [Work(w)];
      assert acts[1..] == [] && Feasible(s1, []) && After(s, acts) == After(s1, []) == s1;
    } else {
      var s2 := Step(s1, Work(w));
      acts := [Work(w), Work(w)];
      assert acts[1..] == [Work(w)] && acts[1..][1..] == [];
      assert Feasible(s2, []) && Feasible(s1, [Work(w)]) && After(s, acts) == After(s1, [Work(w)]) == After(s2, []) == s2;
      assert s2.workers == s.workers[w := Snapshot(s).(pc := Outer)];
    }
  }

  /** From the bump onwards, when everybody holds a ticket drawn before `start_` is read. */
  lemma PublishAndSitOut(s: State) returns (acts: seq<Act>)
    requires s.caller.Bumping? && s.n > 0 && s.counter + s.n + |s.workers| < WORD
    requires forall w :: 0 <= w < |s.workers| ==> var x := s.workers[w];
      (x.pc.Drawn? || x.pc.Stale?) && x.pc.ticket < s.counter && x.gen <= s.gen
    ensures Feasible(s, acts) && NoPublish(acts) && Stuck(After(s, acts))
  {
    var publish := [Advance, Advance, Advance];
    var s3 := CallerStep(s);
    var s4 := CallerStep(s3);
    var s5 := CallerStep(s4);
    assert publish[1..] == [Advance, Advance] && publish[1..][1..] == [Advance] && publish[1..][1..][1..] == [];
    assert Feasible(s5, []) && Feasible(s4, [Advance]) && Feasible(s3, [Advance, Advance]) && Feasible(s, publish);
    assert After(s, publish) == After(s3, [Advance, Advance]) == After(s4, [Advance]) == After(s5, []) == s5;
    var sits := EveryoneSitsOut(s5, |s.workers|);
    Chain(s, publish, sits);
    acts := publish + sits;
  }

  /** If all workers are still inside the ticket loop when a call is published, some interleaving loses
      the call: everyone re-anchors with a ticket below the new range and nobody draws for it. */
  lemma AllInLoopCanHang(s: State, size: nat)
    requires Reachable(s) && Enabled(s, Publish(size)) && AllInLoop(s)
    requires s.counter + size + 2 * |s.workers| < WORD
    ensures CanHang(s, size)
  {
    ReachableInv(s);
    var s1 := Step(s, Publish(size));
    forall w | 0 <= w < |s.workers| ensures WorkerInv(s, s.workers[w]) && !Busy(s.workers[w]) { }
    var draws := EveryoneDraws(s1, |s.workers|);
    var s2 := After(s1, draws);
    hide Inv, Feasible;
    var rest := PublishAndSitOut(s2);
    Chain(s1, draws, rest);
    HangWitness(s, size, draws + rest);
  }

  lemma HangWitness(s: State, size: nat, acts: seq<Act>)
    requires Enabled(s, Publish(size)) && Fits(Step(s, Publish(size))) && NoPublish(acts)
    requires Feasible(Step(s, Publish(size)), acts) && Stuck(After(Step(s, Publish(size)), acts))
    ensures CanHang(s, size)
  {
    assert ([Publish(size)] + acts)[1..] == acts;
  }

  /** The exact condition: a call can hang if and only if no worker is outside the ticket loop when it is published. */
  lemma CanHangIff(s: State, size: nat)
    requires Reachable(s) && Enabled(s, Publish(size)) && s.counter + size + 2 * |s.workers| < WORD
    ensures CanHang(s, size) <==> AllInLoop(s)
  {
    if AllInLoop(s) { AllInLoopCanHang(s, size); } else { OneWaiterSuffices(s, size); }
  }

  lemma ReachOne(s: State, a: Act)
    requires Reachable(s) && Enabled(s, a) && Fits(Step(s, a))
    ensures Reachable(Step(s, a))
  {
    var nt: nat, acts :| Fits(Init(nt)) && Feasible(Init(nt), acts) && After(Init(nt), acts) == s;
    assert [a][1..] == [] && Feasible(Step(s, a), []);
    Chain(Init(nt), acts, [a]);
  }

  /** Two workers are at the same point of the loop. */
  predicate Pair(s: State, p: Pc, q: Pc) {
    s.workers == [Worker(p, 1, 0, 2, 1), Worker(q, 1, 0, 2, 1)]
  }

  lemma FirstCallOpen() returns (s: State)
    ensures Reachable(s) && s.workers == [Worker(Outer, 0, 0, 0, 0), Worker(Outer, 0, 0, 0, 0)]
    ensures s == State(0, 1, 2, 0, 2, 1, Waiting, s.workers, [Call(0, 0), Call(0, 2)], {}, multiset{})
  {
    s := Init(2);
    assert Feasible(s, []) && After(s, []) == s;
    ReachOne(s, Publish(2)); s := Step(s, Publish(2));
    ReachOne(s, Advance); s := CallerStep(s);
    ReachOne(s, Advance); s := CallerStep(s);
    ReachOne(s, Advance); s := CallerStep(s);
  }

  /** Both of two workers take one step each. */
  lemma ReachBoth(s: State) returns (s': State)
    requires Reachable(s) && |s.workers| == 2 && s.counter + s.n + 4 < WORD
    requires WorkerEnabled(s, 0) && WorkerEnabled(WorkerStep(s, 0), 1)
    ensures Reachable(s') && s' == WorkerStep(WorkerStep(s, 0), 1)
  {
    ReachOne(s, Work(0));
    s' := WorkerStep(WorkerStep(s, 0), 1);
    ReachOne(WorkerStep(s, 0), Work(1));
  }

  lemma BothDrew() returns (s: State)
    ensures Reachable(s) && Pair(s, Drawn(0), Drawn(1)) && s.caller.Waiting?
    ensures s.counter == 2 && s.gen == 1 && s.n == 2 && s.remaining == 2
  {
    s := FirstCallOpen();
    s := ReachBoth(s);
    s := ReachBoth(s);
    assert Pair(s, Draw, Draw);
    s := ReachBoth(s);
  }

  /** The condition does arise: two workers, one call of two indices, and both workers at their next draw. */
  lemma HangIsReachable() returns (s: State)
    ensures Reachable(s) && Enabled(s, Publish(2)) && AllInLoop(s) && CanHang(s, 2)
  {
    s := BothDrew();
    s := ReachBoth(s);
    assert Pair(s, Run(0), Run(1));
    s := ReachBoth(s);
    assert Pair(s, Ran(0), Ran(1));
    s := ReachBoth(s);
    assert Pair(s, Draw, Draw) && s.remaining == 0;
    ReachOne(s, Advance); s := CallerStep(s);
    AllInLoopCanHang(s, 2);
  }
}
