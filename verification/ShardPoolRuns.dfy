/** What the sharded pool guarantees over whole runs, and exactly when: a call must not be opened while a
    worker inside its ticket loop can still draw for it, and every node with jobs needs a worker outside. */
module ShardPoolRuns {
  import opened ShardPool
  import opened ShardPoolInv

  lemma {:induction false} RunInv(s: Shards, ms: seq<Move>)
    requires Inv(s) && Possible(s, ms) && Careful(s, ms)
    ensures Inv(Then(s, ms))
    decreases |ms|
  {
    hide Inv, SafeToOpen;
    if ms != [] {
      MoveInv(s, ms[0]);
      RunInv(Do(s, ms[0]), ms[1..]);
    }
  }

  lemma ReachedInv(s: Shards)
    requires Reached(s)
    ensures Inv(s)
  {
    var nodes: seq<nat>, shards: nat, ms :|
      (forall w :: 0 <= w < |nodes| ==> nodes[w] < shards) && Possible(Start(nodes, shards), ms)
      && Careful(Start(nodes, shards), ms) && Then(Start(nodes, shards), ms) == s;
    StartInv(nodes, shards);
    RunInv(Start(nodes, shards), ms);
  }

  // ----- One whole call.

  /** Nothing but `m` itself adds to the log: job j of node n with the newest call's function. */
  lemma MoveLog(s: Shards, m: Move, g: nat, n: nat, j: nat)
    requires Inv(s) && Ready(s, m)
    ensures g != s.task ==> Do(s, m).log[(g, n, j)] == s.log[(g, n, j)]
    ensures Do(s, m).log[(g, n, j)] > s.log[(g, n, j)] ==> m.Turn? && s.workers[m.w].node == n
  {
    if m.Turn? && s.workers[m.w].at.Runs? { BusyIsCurrent(s, m.w); }
  }

  /** s has come out of the call `counts` opened in base. */
  ghost predicate During(base: Shards, counts: seq<nat>, s: Shards) {
    && s.counts == counts && s.task == base.gen + 1
    && (forall g: nat, n: nat, j: nat :: g <= base.gen ==> s.log[(g, n, j)] == base.log[(g, n, j)])
  }

  lemma {:induction false} DuringRun(base: Shards, counts: seq<nat>, s: Shards, ms: seq<Move>)
    requires Inv(s) && Possible(s, ms) && NoOpen(ms) && During(base, counts, s)
    ensures Inv(Then(s, ms)) && During(base, counts, Then(s, ms))
    decreases |ms|
  {
    if ms != [] {
      MoveInv(s, ms[0]);
      forall g: nat, n: nat, j: nat | g <= base.gen ensures Do(s, ms[0]).log[(g, n, j)] == base.log[(g, n, j)] {
        MoveLog(s, ms[0], g, n, j);
      }
      assert During(base, counts, Do(s, ms[0]));
      hide Inv, During;
      DuringRun(base, counts, Do(s, ms[0]), ms[1..]);
    }
  }

  lemma SafeCall(s: Shards, counts: seq<nat>, ms: seq<Move>)
    requires Inv(s) && Ready(s, Open(counts)) && SafeToOpen(s, counts) && NoOpen(ms)
    requires Possible(Do(s, Open(counts)), ms)
    ensures Inv(Then(Do(s, Open(counts)), ms)) && During(s, counts, Then(Do(s, Open(counts)), ms))
  {
    MoveInv(s, Open(counts));
    assert During(s, counts, Do(s, Open(counts)));
    hide Inv;
    DuringRun(s, counts, Do(s, Open(counts)), ms);
  }

  /** How a call shows in the log once it has returned. */
  ghost predicate ExactlyOnce(before: Shards, counts: seq<nat>, s: Shards) {
    forall g: nat, n: nat, j: nat ::
      s.log[(g, n, j)] == before.log[(g, n, j)] + (if g == before.gen + 1 && IsJob(counts, n, j) then 1 else 0)
  }

  /** In every interleaving, a call opened when that was safe returns with each (node, job) run exactly once,
      with its own function, and runs nothing else. */
  lemma CallRunsEachJobOnce(s: Shards, counts: seq<nat>, ms: seq<Move>)
    requires Inv(s) && Ready(s, Open(counts)) && SafeToOpen(s, counts) && NoOpen(ms)
    requires Possible(Do(s, Open(counts)), ms) && Then(Do(s, Open(counts)), ms).phase.Free?
    ensures ExactlyOnce(s, counts, Then(Do(s, Open(counts)), ms))
  {
    SafeCall(s, counts, ms);
    var e := Then(Do(s, Open(counts)), ms);
    forall g: nat, n: nat, j: nat
      ensures e.log[(g, n, j)] == s.log[(g, n, j)] + (if g == s.gen + 1 && IsJob(counts, n, j) then 1 else 0)
    {
      FreeIsDone(e, n, j);
    }
  }

  // ----- Exactly when a call is safe to open.

  /** However the workers go on, a call with these counts leaves earlier calls finished and, if it returns,
      has run each of its jobs once. */
  ghost predicate Sound(s: Shards, counts: seq<nat>)
    requires Ready(s, Open(counts))
  {
    forall ms :: NoOpen(ms) && Possible(Do(s, Open(counts)), ms) ==>
      var e := Then(Do(s, Open(counts)), ms);
      && (forall g: nat, n: nat, j: nat :: g <= s.gen ==> e.log[(g, n, j)] == s.log[(g, n, j)])
      && (e.phase.Free? ==> ExactlyOnce(s, counts, e))
  }

  lemma SafeIsSound(s: Shards, counts: seq<nat>)
    requires Inv(s) && Ready(s, Open(counts)) && SafeToOpen(s, counts)
    ensures Sound(s, counts)
  {
    hide Inv, SafeToOpen;
    forall ms | NoOpen(ms) && Possible(Do(s, Open(counts)), ms)
      ensures var e := Then(Do(s, Open(counts)), ms);
        && (forall g: nat, n: nat, j: nat :: g <= s.gen ==> e.log[(g, n, j)] == s.log[(g, n, j)])
        && (e.phase.Free? ==> ExactlyOnce(s, counts, e))
    {
      SafeCall(s, counts, ms);
      if Then(Do(s, Open(counts)), ms).phase.Free? { CallRunsEachJobOnce(s, counts, ms); }
    }
  }

  lemma {:induction false} Chain(s: Shards, a: seq<Move>, b: seq<Move>)
    requires Possible(s, a) && Possible(Then(s, a), b)
    ensures Possible(s, a + b) && Then(s, a + b) == Then(Then(s, a), b)
    decreases |a|
  {
    hide Ready, Do;
    if a == [] {
      assert a + b == b;
    } else {
      Chain(Do(s, a[0]), a[1..], b);
      assert (a + b)[0] == a[0] && (a + b)[1..] == a[1..] + b;
    }
  }

  /** A worker of an earlier call that will run (node, t) with that call's function. */
  predicate Doomed(s: Shards, x: Pinned) {
    && x.node < |s.tickets| && x.task < s.task && !s.phase.Free?
    && match x.at
       case Bound => s.phase.Await? && x.gen < s.gen && IsJob(s.counts, x.node, 0) && s.tickets[x.node] == 0
       case Draws =>
         (s.phase.Await? && x.gen < s.gen && IsJob(s.counts, x.node, 0) && s.tickets[x.node] == 0)
         || (s.phase.Reset? && x.gen == s.gen && s.tickets[x.node] < x.nj)
       case Has(t) =>
         (s.phase.Await? && x.gen < s.gen && IsJob(s.counts, x.node, t)) || (s.phase.Reset? && x.gen == s.gen && t < x.nj)
       case Late(t) => s.phase.Await? && IsJob(s.counts, x.node, t)
       case Runs(_) => true
       case _ => false
  }

  function Distance(x: Pinned): nat {
    match x.at
    case Bound => 5
    case Draws => 4
    case Has(_) => 3
    case Late(_) => 2
    case _ => 1
  }

  /** Left alone, a doomed worker runs an earlier call's function. */
  lemma {:induction false} DoomedRuns(s: Shards, w: nat) returns (ms: seq<Move>, n: nat, j: nat)
    requires w < |s.workers| && Doomed(s, s.workers[w])
    ensures NoOpen(ms) && Possible(s, ms)
    ensures var g := s.workers[w].task; Then(s, ms).log[(g, n, j)] > s.log[(g, n, j)]
    decreases Distance(s.workers[w])
  {
    var x, s' := s.workers[w], TurnOf(s, w);
    if x.at.Runs? {
      n, j := x.node, x.at.j;
      ms := [Turn(w)];
      assert ms[1..] == [] && Possible(s', []) && Then(s, ms) == Then(s', []) == s';
    } else {
      assert Doomed(s', s'.workers[w]) && s'.log == s.log && s'.workers[w].task == x.task;
      hide Doomed, TurnOf;
      var rest;
      rest, n, j := DoomedRuns(s', w);
      ms := [Turn(w)] + rest;
      assert ms[1..] == rest;
    }
  }

  /** A worker that is not harmless ends up doomed. */
  lemma HarmfulIsDoomed(s: Shards, counts: seq<nat>, w: nat)
    requires Inv(s) && Ready(s, Open(counts)) && w < |s.workers| && !Harmless(s, s.workers[w], counts)
    ensures Doomed(Do(s, Open(counts)), s.workers[w]) || Doomed(Do(Do(s, Open(counts)), Go), s.workers[w])
  {
    OneWorker(s, w);
    if s.workers[w].at.Runs? || s.workers[w].at.RanJob? {
      BusyIsCurrent(s, w);
      FreeIsDone(s, s.workers[w].node, s.workers[w].at.j);
    }
  }

  lemma HarmfulIsUnsound(s: Shards, counts: seq<nat>, w: nat)
    requires Inv(s) && Ready(s, Open(counts)) && w < |s.workers| && !Harmless(s, s.workers[w], counts)
    ensures !Sound(s, counts)
  {
    HarmfulIsDoomed(s, counts, w);
    OneWorker(s, w);
    hide Inv, Doomed;
    var s1 := Do(s, Open(counts));
    var s2 := Do(s1, Go);
    var g := s.workers[w].task;
    if Doomed(s1, s.workers[w]) {
      var ms, n, j := DoomedRuns(s1, w);
      assert Then(s1, ms).log[(g, n, j)] != s.log[(g, n, j)];
    } else {
      var rest, n, j := DoomedRuns(s2, w);
      var ms := [Go] + rest;
      assert ms[1..] == rest && Possible(s1, ms) && Then(s1, ms) == Then(s2, rest);
      assert Then(s1, ms).log[(g, n, j)] != s.log[(g, n, j)];
    }
  }

  /** The exact condition: a call keeps its promises in every interleaving if and only if it is opened while
      no worker left in a ticket loop can draw, or holds, a ticket that reads as one of its jobs. */
  lemma SoundIffSafe(s: Shards, counts: seq<nat>)
    requires Reached(s) && Ready(s, Open(counts))
    ensures Sound(s, counts) <==> SafeToOpen(s, counts)
  {
    ReachedInv(s);
    if SafeToOpen(s, counts) {
      SafeIsSound(s, counts);
    } else {
      var w :| 0 <= w < |s.workers| && !Harmless(s, s.workers[w], counts);
      HarmfulIsUnsound(s, counts, w);
    }
  }

  /** Quiescent hand-over is safe whatever the next call looks like. */
  lemma QuiescentIsSound(s: Shards, counts: seq<nat>)
    requires Reached(s) && Ready(s, Open(counts)) && forall w :: 0 <= w < |s.workers| ==> !InLoop(s.workers[w])
    ensures Sound(s, counts)
  {
    SoundIffSafe(s, counts);
  }

  // ----- An ordinary hand-over is not safe.

  lemma Extend(s: Shards, ms: seq<Move>, m: Move)
    requires Possible(s, ms) && Ready(Then(s, ms), m)
    ensures Possible(s, ms + [m]) && Then(s, ms + [m]) == Do(Then(s, ms), m)
  {
    assert [m][1..] == [] && Possible(Do(Then(s, ms), m), []);
    Chain(s, ms, [m]);
  }

  lemma {:induction false} CarefulChain(s: Shards, ms: seq<Move>, m: Move)
    requires Possible(s, ms) && Careful(s, ms) && Ready(Then(s, ms), m) && (m.Open? ==> SafeToOpen(Then(s, ms), m.counts))
    ensures Possible(s, ms + [m]) && Careful(s, ms + [m])
    decreases |ms|
  {
    Extend(s, ms, m);
    if ms == [] {
      assert [m][1..] == [] && ms + [m] == [m];
    } else {
      CarefulChain(Do(s, ms[0]), ms[1..], m);
      assert (ms + [m])[0] == ms[0] && (ms + [m])[1..] == ms[1..] + [m];
    }
  }

  lemma ReachOne(s: Shards, m: Move)
    requires Reached(s) && Ready(s, m) && (m.Open? ==> SafeToOpen(s, m.counts))
    ensures Reached(Do(s, m))
  {
    var nodes: seq<nat>, shards: nat, ms :|
      (forall w :: 0 <= w < |nodes| ==> nodes[w] < shards) && Possible(Start(nodes, shards), ms)
      && Careful(Start(nodes, shards), ms) && Then(Start(nodes, shards), ms) == s;
    CarefulChain(Start(nodes, shards), ms, m);
    Extend(Start(nodes, shards), ms, m);
  }

  /** Worker 0 of two on node 0; the other one still waits for its first generation. */
  predicate Stage(s: Shards, at: Place, gen: nat, nj: nat) {
    s.workers == [Pinned(0, at, gen, nj, gen), Pinned(0, Waits, 0, 0, 0)]
  }

  lemma OneJob()
    ensures Total([1]) == 1
  {
    assert [1][..0] == [];
  }

  lemma OneJobOpen() returns (s: Shards)
    ensures Reached(s) && Stage(s, Waits, 0, 0)
    ensures s == Shards([0], [1], 1, 1, 1, Await, s.workers, {}, multiset{})
  {
    s := Start([0, 0], 1);
    assert Possible(s, []) && Careful(s, []) && Then(s, []) == s;
    OneJob();
    assert Reached(s) && Stage(s, Waits, 0, 0);
    hide Reached;
    ReachOne(s, Open([1])); s := Do(s, Open([1]));
    assert s.tickets == [0];
    ReachOne(s, Go); s := Do(s, Go);
  }

  lemma OneJobDrawn() returns (s: Shards)
    ensures Reached(s) && Stage(s, Has(0), 1, 1)
    ensures s == Shards([1], [1], 1, 1, 1, Await, s.workers, {}, multiset{})
  {
    hide Reached;
    s := OneJobOpen();
    ReachOne(s, Turn(0)); s := TurnOf(s, 0);
    ReachOne(s, Turn(0)); s := TurnOf(s, 0);
    assert Stage(s, Bound, 1, 0);
    ReachOne(s, Turn(0)); s := TurnOf(s, 0);
    assert Stage(s, Draws, 1, 1);
    ReachOne(s, Turn(0)); s := TurnOf(s, 0);
  }

  lemma OneJobRan() returns (s: Shards)
    ensures Reached(s) && Stage(s, RanJob(0), 1, 1)
    ensures s == Shards([1], [1], 1, 1, 1, Await, s.workers, {}, multiset{(1, 0, 0)})
  {
    hide Reached;
    s := OneJobDrawn();
    ReachOne(s, Turn(0)); s := TurnOf(s, 0);
    assert Stage(s, Runs(0), 1, 1);
    ReachOne(s, Turn(0)); s := TurnOf(s, 0);
  }

  lemma OneJobReturned() returns (s: Shards)
    ensures Reached(s) && Stage(s, Draws, 1, 1)
    ensures s == Shards([1], [1], 1, 0, 1, Free, s.workers, {(0, 0)}, multiset{(1, 0, 0)})
  {
    hide Reached;
    s := OneJobRan();
    ReachOne(s, Turn(0)); s := TurnOf(s, 0);
    ReachOne(s, Go); s := Do(s, Go);
  }

  /** Worker 0 draws the new call's only ticket before the generation moves, and then re-anchors. */
  lemma DrawAcross(a: Shards) returns (ms: seq<Move>)
    requires Stage(a, Draws, 1, 1)
    requires a == Shards([0], [1], 1, 0, 2, Reset, a.workers, {}, multiset{(1, 0, 0)})
    ensures NoOpen(ms) && Possible(a, ms) && |Then(a, ms).workers| == 2
    ensures var e := Then(a, ms); e == Shards([1], [1], 2, 1, 2, Await, e.workers, {}, a.log) && e.workers[0] == Pinned(0, Late(0), 1, 1, 1)
  {
    OneJob();
    assert Possible(a, []) && Then(a, []) == a;
    hide Possible, Then;
    Extend(a, [], Turn(0));
    Extend(a, [Turn(0)], Go);
    assert [Turn(0)] + [Go] == [Turn(0), Go];
    Extend(a, [Turn(0), Go], Turn(0));
    ms := [Turn(0), Go] + [Turn(0)];
  }

  /** It then runs the old call's function on the new call's job, and the new call returns. */
  lemma RunAcross(a: Shards, ms0: seq<Move>) returns (ms: seq<Move>)
    requires NoOpen(ms0) && Possible(a, ms0) && |Then(a, ms0).workers| == 2
    requires var e := Then(a, ms0);
      e == Shards([1], [1], 2, 1, 2, Await, e.workers, {}, multiset{(1, 0, 0)}) && e.workers[0] == Pinned(0, Late(0), 1, 1, 1)
    ensures NoOpen(ms) && Possible(a, ms)
    ensures Then(a, ms).phase.Free? && Then(a, ms).log == multiset{(1, 0, 0), (1, 0, 0)}
  {
    hide Possible, Then;
    Extend(a, ms0, Turn(0)); ms := ms0 + [Turn(0)];
    assert Then(a, ms).workers[0] == Pinned(0, Runs(0), 2, 1, 1);
    Extend(a, ms, Turn(0)); ms := ms + [Turn(0)];
    Extend(a, ms, Turn(0)); ms := ms + [Turn(0)];
    assert Then(a, ms).remaining == 0;
    Extend(a, ms, Go); ms := ms + [Go];
  }

  /** Two workers on one node and two calls of one job, the second opened while worker 0 is about to draw: the
      first call's job runs again in place of the second's. */
  lemma HandOverGoesWrong() returns (s: Shards, ms: seq<Move>)
    ensures Reached(s) && Ready(s, Open([1])) && !Sound(s, [1])
    ensures NoOpen(ms) && Possible(Do(s, Open([1])), ms)
    ensures var e := Then(Do(s, Open([1])), ms); e.phase.Free? && e.log[(1, 0, 0)] == 2 && e.log[(2, 0, 0)] == 0
  {
    hide Reached, Sound, Possible, Then;
    s := OneJobReturned();
    OneJob();
    assert !Harmless(s, s.workers[0], [1]);
    SoundIffSafe(s, [1]);
    var a := Do(s, Open([1]));
    assert a.tickets == [0];
    ms := DrawAcross(a);
    ms := RunAcross(a, ms);
  }
}
