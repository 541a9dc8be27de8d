/** Every move of a careful run keeps the sharded pool's invariant. */
module ShardPoolInv {
  import opened ShardPool

  // ----- Counting jobs.

  function Column(n: nat, c: nat): set<(nat, nat)> {
    set j: nat | j < c :: (n, j)
  }

  lemma {:induction false} ColumnSize(n: nat, c: nat)
    ensures |Column(n, c)| == c
  {
    if c > 0 {
      ColumnSize(n, c - 1);
      assert Column(n, c) == Column(n, c - 1) + {(n, c - 1)};
    }
  }

  function JobSet(counts: seq<nat>): set<(nat, nat)> {
    if counts == [] then {}
    else JobSet(counts[..|counts| - 1]) + Column(|counts| - 1, counts[|counts| - 1])
  }

  lemma {:induction false} JobSetIs(counts: seq<nat>)
    ensures |JobSet(counts)| == Total(counts)
    ensures forall n: nat, j: nat :: (n, j) in JobSet(counts) <==> IsJob(counts, n, j)
  {
    if counts != [] {
      var k := |counts| - 1;
      JobSetIs(counts[..k]);
      ColumnSize(k, counts[k]);
      assert JobSet(counts[..k]) !! Column(k, counts[k]) by {
        forall p | p in JobSet(counts[..k]) ensures p !in Column(k, counts[k]) {
          assert IsJob(counts[..k], p.0, p.1);
        }
      }
      forall n: nat, j: nat ensures (n, j) in JobSet(counts) <==> IsJob(counts, n, j) {
        assert IsJob(counts, n, j) <==> IsJob(counts[..k], n, j) || (n == k && j < counts[k]);
      }
    }
  }

  lemma SubsetCard<T>(a: set<T>, b: set<T>)
    requires a <= b
    ensures |a| <= |b| && (|a| == |b| <==> a == b)
  {
    assert b == a + (b - a);
  }

  /** The countdown is zero exactly when every job is finished. */
  lemma AllFinished(s: Shards)
    requires Inv(s)
    ensures |s.fin| <= Total(s.counts)
    ensures |s.fin| == Total(s.counts) <==> forall n: nat, j: nat :: IsJob(s.counts, n, j) ==> (n, j) in s.fin
  {
    hide LogOk, WorkersOk, Apart;
    JobSetIs(s.counts);
    assert s.fin <= JobSet(s.counts) by {
      forall p | p in s.fin ensures p in JobSet(s.counts) { assert p == (p.0, p.1); }
    }
    SubsetCard(s.fin, JobSet(s.counts));
    if forall n: nat, j: nat :: IsJob(s.counts, n, j) ==> (n, j) in s.fin {
      forall p | p in JobSet(s.counts) ensures p in s.fin { assert p == (p.0, p.1); }
    }
  }

  lemma StartInv(nodes: seq<nat>, shards: nat)
    requires forall w :: 0 <= w < |nodes| ==> nodes[w] < shards
    ensures Inv(Start(nodes, shards))
  {
  }

  // ----- Replacing one worker.

  lemma HeldPut(s: Shards, w: nat, x: Pinned, n: nat, j: nat)
    requires w < |s.workers|
    ensures Held(Set(s, w, x), n, j) ==> Held(s, n, j) || HoldsJob(s, x, n, j)
    ensures HoldsJob(s, x, n, j) ==> Held(Set(s, w, x), n, j)
    ensures Held(s, n, j) ==> Held(Set(s, w, x), n, j) || HoldsJob(s, s.workers[w], n, j)
  {
    var s' := Set(s, w, x);
    assert forall y :: HoldsJob(s', y, n, j) == HoldsJob(s, y, n, j);
    if Held(s', n, j) {
      var v :| 0 <= v < |s'.workers| && HoldsJob(s', s'.workers[v], n, j);
      assert v != w ==> s'.workers[v] == s.workers[v];
    }
    if HoldsJob(s, x, n, j) { assert HoldsJob(s', s'.workers[w], n, j); }
    if Held(s, n, j) {
      var v :| 0 <= v < |s.workers| && HoldsJob(s, s.workers[v], n, j);
      assert v != w ==> s'.workers[v] == s.workers[v];
    }
  }

  lemma JustRanPut(s: Shards, w: nat, x: Pinned, n: nat, j: nat)
    requires w < |s.workers|
    ensures JustRan(Set(s, w, x), n, j) ==> JustRan(s, n, j) || (x.node == n && x.at == RanJob(j))
    ensures x.node == n && x.at == RanJob(j) ==> JustRan(Set(s, w, x), n, j)
    ensures JustRan(s, n, j) ==> JustRan(Set(s, w, x), n, j) || (s.workers[w].node == n && s.workers[w].at == RanJob(j))
  {
    var s' := Set(s, w, x);
    if JustRan(s', n, j) {
      var v :| 0 <= v < |s'.workers| && s'.workers[v].node == n && s'.workers[v].at == RanJob(j);
      assert v != w ==> s'.workers[v] == s.workers[v];
    }
    if x.node == n && x.at == RanJob(j) { assert s'.workers[w].at == RanJob(j); }
    if JustRan(s, n, j) {
      var v :| 0 <= v < |s.workers| && s.workers[v].node == n && s.workers[v].at == RanJob(j);
      assert v != w ==> s'.workers[v] == s.workers[v];
    }
  }

  /** Worker w changes place but holds the same job, if any, as before. */
  ghost predicate SameJobs(s: Shards, x: Pinned, y: Pinned) {
    forall n: nat, j: nat :: HoldsJob(s, x, n, j) == HoldsJob(s, y, n, j)
  }

  lemma QuietFin(s: Shards, w: nat, x: Pinned)
    requires FinOk(s) && Apart(s) && w < |s.workers| && SameJobs(s, s.workers[w], x)
    requires |s.counts| <= |s.tickets|
    ensures FinOk(Set(s, w, x)) && Apart(Set(s, w, x))
  {
    var s' := Set(s, w, x);
    forall n: nat, j: nat ensures Held(s', n, j) == Held(s, n, j) { HeldPut(s, w, x, n, j); }
    hide Held;
    forall v, u, n: nat, j: nat | 0 <= v < |s'.workers| && 0 <= u < |s'.workers|
      && HoldsJob(s', s'.workers[v], n, j) && HoldsJob(s', s'.workers[u], n, j)
      ensures v == u
    {
      assert HoldsJob(s, s.workers[v], n, j) && HoldsJob(s, s.workers[u], n, j);
    }
  }

  lemma QuietLog(s: Shards, w: nat, x: Pinned)
    requires LogOk(s) && w < |s.workers| && !s.workers[w].at.RanJob? && !x.at.RanJob?
    ensures LogOk(Set(s, w, x))
  {
    var s' := Set(s, w, x);
    forall n: nat, j: nat ensures JustRan(s', n, j) == JustRan(s, n, j) { JustRanPut(s, w, x, n, j); }
    hide JustRan;
  }

  lemma QuietWorkers(s: Shards, w: nat, x: Pinned)
    requires WorkersOk(s) && w < |s.workers| && WorkerOk(s, x)
    ensures WorkersOk(Set(s, w, x))
  {
    var s' := Set(s, w, x);
    forall v | 0 <= v < |s'.workers| ensures WorkerOk(s', s'.workers[v]) {
      assert v != w ==> WorkerOk(s, s.workers[v]);
    }
  }

  lemma QuietSet(s: Shards, w: nat, x: Pinned)
    requires Inv(s) && w < |s.workers| && WorkerOk(s, x) && SameJobs(s, s.workers[w], x)
    requires !s.workers[w].at.RanJob? && !x.at.RanJob?
    ensures Inv(Set(s, w, x))
  {
    hide FinOk, Apart, LogOk, WorkersOk, WorkerOk;
    QuietFin(s, w, x);
    QuietLog(s, w, x);
    QuietWorkers(s, w, x);
  }

  /** Waking, anchoring, reading the job count, and checking or reconciling a ticket. */
  lemma QuietTurn(s: Shards, w: nat)
    requires Inv(s) && WorkerReady(s, w)
    requires var p := s.workers[w].at; p.Waits? || p.Locks? || p.Bound? || p.Has? || p.Late?
    ensures Inv(TurnOf(s, w))
  {
    hide FinOk, Apart, LogOk, WorkersOk;
    assert WorkerOk(s, s.workers[w]) by { OneWorker(s, w); }
    var x := TurnOf(s, w).workers[w];
    assert TurnOf(s, w) == Set(s, w, x);
    assert WorkerOk(s, x);
    QuietSet(s, w, x);
  }

  lemma OneWorker(s: Shards, w: nat)
    requires WorkersOk(s) && w < |s.workers|
    ensures WorkerOk(s, s.workers[w])
  {
  }

  // ----- Drawing.

  lemma DrawWorkers(s: Shards, w: nat)
    requires WorkersOk(s) && WorkerReady(s, w) && s.workers[w].at.Draws?
    ensures WorkersOk(TurnOf(s, w))
  {
    var s' := TurnOf(s, w);
    forall v | 0 <= v < |s'.workers| ensures WorkerOk(s', s'.workers[v]) {
      OneWorker(s, v);
      OneWorker(s, w);
    }
  }

  lemma DrawHeld(s: Shards, w: nat, n: nat, j: nat)
    requires WorkersOk(s) && WorkerReady(s, w) && s.workers[w].at.Draws?
    ensures var x := s.workers[w]; var t := s.tickets[x.node];
      Held(TurnOf(s, w), n, j) <==> Held(s, n, j) || (Current(s, x) && n == x.node && j == t && t < x.nj)
  {
    var s' := TurnOf(s, w);
    OneWorker(s, w);
    var x := s'.workers[w];
    HeldPut(s, w, x, n, j);
    assert forall y :: HoldsJob(s', y, n, j) == HoldsJob(Set(s, w, x), y, n, j);
    assert s'.workers == Set(s, w, x).workers;
    assert Held(s', n, j) == Held(Set(s, w, x), n, j);
  }

  lemma DrawFin(s: Shards, w: nat)
    requires FinOk(s) && WorkersOk(s) && CountOk(s) && WorkerReady(s, w) && s.workers[w].at.Draws?
    ensures FinOk(TurnOf(s, w))
  {
    var s', x := TurnOf(s, w), s.workers[w];
    OneWorker(s, w);
    forall n: nat, j: nat
      ensures (n, j) in s'.fin ==> Issued(s', n, j) && !Held(s', n, j)
      ensures Issued(s', n, j) && (n, j) !in s'.fin ==> Held(s', n, j)
    {
      DrawHeld(s, w, n, j);
    }
  }

  /** The ticket drawn is above every job held for its node. */
  lemma DrawApart(s: Shards, w: nat)
    requires Apart(s) && WorkersOk(s) && CountOk(s) && WorkerReady(s, w) && s.workers[w].at.Draws?
    ensures Apart(TurnOf(s, w))
  {
    var s' := TurnOf(s, w);
    forall v, n: nat, j: nat | 0 <= v < |s'.workers| && HoldsJob(s', s'.workers[v], n, j)
      ensures if v == w then n == s.workers[w].node && j == s.tickets[n] else HoldsJob(s, s.workers[v], n, j) && j < s.tickets[n]
    {
      OneWorker(s, v);
    }
  }

  lemma DrawLog(s: Shards, w: nat)
    requires LogOk(s) && WorkerReady(s, w) && s.workers[w].at.Draws?
    ensures LogOk(TurnOf(s, w))
  {
    var s', x := TurnOf(s, w), TurnOf(s, w).workers[w];
    QuietLog(s, w, x);
    assert forall n: nat, j: nat :: JustRan(s', n, j) == JustRan(Set(s, w, x), n, j);
  }

  lemma DrawTurn(s: Shards, w: nat)
    requires Inv(s) && WorkerReady(s, w) && s.workers[w].at.Draws?
    ensures Inv(TurnOf(s, w))
  {
    hide FinOk, Apart, LogOk, WorkersOk;
    DrawWorkers(s, w);
    DrawFin(s, w);
    DrawApart(s, w);
    DrawLog(s, w);
  }

  // ----- Running and finishing a job.

  lemma BusyIsCurrent(s: Shards, w: nat)
    requires Inv(s) && w < |s.workers| && (s.workers[w].at.Runs? || s.workers[w].at.RanJob?)
    ensures var x := s.workers[w]; var j := x.at.j;
      && Current(s, x) && x.task == s.task == s.gen && HoldsJob(s, x, x.node, j) && Held(s, x.node, j)
      && (x.node, j) !in s.fin && Issued(s, x.node, j)
  {
    OneWorker(s, w);
    var x := s.workers[w];
    assert HoldsJob(s, x, x.node, x.at.j);
  }

  /** A job about to run has not run. */
  lemma RunIsFresh(s: Shards, w: nat)
    requires Inv(s) && w < |s.workers| && s.workers[w].at.Runs?
    ensures !JustRan(s, s.workers[w].node, s.workers[w].at.j)
  {
    var x := s.workers[w];
    BusyIsCurrent(s, w);
    forall v | 0 <= v < |s.workers| ensures !(s.workers[v].node == x.node && s.workers[v].at == RanJob(x.at.j)) {
      if s.workers[v].at.RanJob? { BusyIsCurrent(s, v); }
    }
  }

  lemma RunLog(s: Shards, w: nat)
    requires LogOk(s) && w < |s.workers| && s.workers[w].at.Runs? && s.workers[w].task == s.task
    requires (s.workers[w].node, s.workers[w].at.j) !in s.fin && !JustRan(s, s.workers[w].node, s.workers[w].at.j)
    requires WorkerReady(s, w)
    ensures LogOk(TurnOf(s, w))
  {
    var s', x := TurnOf(s, w), TurnOf(s, w).workers[w];
    forall n: nat, j: nat
      ensures JustRan(s', n, j) <==> JustRan(s, n, j) || (x.node == n && x.at == RanJob(j))
    {
      JustRanPut(s, w, x, n, j);
      assert JustRan(s', n, j) == JustRan(Set(s, w, x), n, j);
    }
    hide JustRan;
  }

  lemma RunTurn(s: Shards, w: nat)
    requires Inv(s) && WorkerReady(s, w) && s.workers[w].at.Runs?
    ensures Inv(TurnOf(s, w))
  {
    hide FinOk, Apart, LogOk, WorkersOk, JustRan, Held;
    BusyIsCurrent(s, w);
    RunIsFresh(s, w);
    RunLog(s, w);
    OneWorker(s, w);
    var s', x := TurnOf(s, w), TurnOf(s, w).workers[w];
    QuietFin(s, w, x);
    QuietWorkers(s, w, x);
    SameButLog(Set(s, w, x), s');
  }

  lemma SameButLog(s: Shards, s': Shards)
    requires CountOk(s) && WorkersOk(s) && Apart(s) && FinOk(s) && s' == s.(log := s'.log)
    ensures CountOk(s') && WorkersOk(s') && Apart(s') && FinOk(s')
  {
    assert forall x :: WorkerOk(s', x) == WorkerOk(s, x);
    assert forall x, n: nat, j: nat :: HoldsJob(s', x, n, j) == HoldsJob(s, x, n, j);
    assert forall n: nat, j: nat :: Held(s', n, j) == Held(s, n, j);
    hide Held, WorkerOk, HoldsJob;
  }

  lemma FinishFin(s: Shards, w: nat)
    requires Inv(s) && WorkerReady(s, w) && s.workers[w].at.RanJob?
    ensures FinOk(TurnOf(s, w)) && Apart(TurnOf(s, w))
  {
    hide LogOk, WorkersOk;
    var s', x := TurnOf(s, w), s.workers[w];
    BusyIsCurrent(s, w);
    forall y, n: nat, j: nat ensures HoldsJob(s', y, n, j) == HoldsJob(s, y, n, j) { }
    forall n: nat, j: nat ensures Held(s', n, j) <==> Held(s, n, j) && (n, j) != (x.node, x.at.j) {
      HeldPut(s, w, s'.workers[w], n, j);
      assert Held(s', n, j) == Held(Set(s, w, s'.workers[w]), n, j);
      FinishHeld(s, w, n, j);
    }
    hide Held;
    forall v, u, n: nat, j: nat | 0 <= v < |s'.workers| && 0 <= u < |s'.workers|
      && HoldsJob(s', s'.workers[v], n, j) && HoldsJob(s', s'.workers[u], n, j)
      ensures v == u
    {
      assert HoldsJob(s, s.workers[v], n, j) && HoldsJob(s, s.workers[u], n, j);
    }
  }

  lemma FinishHeld(s: Shards, w: nat, n: nat, j: nat)
    requires Apart(s) && WorkerReady(s, w) && s.workers[w].at.RanJob? && HoldsJob(s, s.workers[w], s.workers[w].node, s.workers[w].at.j)
    ensures Held(TurnOf(s, w), n, j) ==> (n, j) != (s.workers[w].node, s.workers[w].at.j)
  {
    var s' := TurnOf(s, w);
    if Held(s', n, j) {
      var v :| 0 <= v < |s'.workers| && HoldsJob(s', s'.workers[v], n, j);
      assert HoldsJob(s, s.workers[v], n, j);
    }
  }

  lemma FinishLog(s: Shards, w: nat)
    requires LogOk(s) && WorkerReady(s, w) && s.workers[w].at.RanJob?
    ensures LogOk(TurnOf(s, w))
  {
    var s', x := TurnOf(s, w), s.workers[w];
    forall n: nat, j: nat
      ensures (n, j) in s'.fin || JustRan(s', n, j) <==> (n, j) in s.fin || JustRan(s, n, j)
    {
      JustRanPut(s, w, s'.workers[w], n, j);
      assert JustRan(s', n, j) == JustRan(Set(s, w, s'.workers[w]), n, j);
      assert (n, j) == (x.node, x.at.j) ==> JustRan(s, n, j);
    }
    hide JustRan;
  }

  /** The countdown never underflows. */
  lemma FinishCount(s: Shards, w: nat)
    requires Inv(s) && WorkerReady(s, w) && s.workers[w].at.RanJob?
    ensures CountOk(TurnOf(s, w)) && TurnOf(s, w).remaining == s.remaining - 1
  {
    hide LogOk, WorkersOk, Apart, FinOk;
    BusyIsCurrent(s, w);
    AllFinished(s);
  }

  lemma FinishTurn(s: Shards, w: nat)
    requires Inv(s) && WorkerReady(s, w) && s.workers[w].at.RanJob?
    ensures Inv(TurnOf(s, w))
  {
    hide FinOk, Apart, LogOk;
    BusyIsCurrent(s, w);
    FinishFin(s, w);
    FinishLog(s, w);
    FinishCount(s, w);
    var s' := TurnOf(s, w);
    forall v | 0 <= v < |s'.workers| ensures WorkerOk(s', s'.workers[v]) {
      OneWorker(s, v);
    }
  }

  // ----- Opening, publishing and returning.

  /** Between calls nobody holds a job, and every node's tickets are used up. */
  lemma FreeIsDone(s: Shards, n: nat, j: nat)
    requires Inv(s) && s.phase.Free?
    ensures !Held(s, n, j) && !JustRan(s, n, j)
    ensures n < |s.counts| ==> s.tickets[n] >= s.counts[n]
    ensures (n, j) in s.fin <==> IsJob(s.counts, n, j)
  {
    AllFinished(s);
    if n < |s.counts| && s.counts[n] > 0 {
      assert IsJob(s.counts, n, s.counts[n] - 1);
    }
    forall w | 0 <= w < |s.workers| ensures !HoldsJob(s, s.workers[w], n, j) && s.workers[w].at != RanJob(j) {
      OneWorker(s, w);
      assert HoldsJob(s, s.workers[w], n, j) ==> Held(s, n, j);
      if s.workers[w].at.RanJob? { BusyIsCurrent(s, w); assert IsJob(s.counts, s.workers[w].node, s.workers[w].at.j); }
    }
  }

  lemma OpenWorker(s: Shards, counts: seq<nat>, w: nat)
    requires Inv(s) && Ready(s, Open(counts)) && w < |s.workers| && Harmless(s, s.workers[w], counts)
    ensures WorkerOk(Do(s, Open(counts)), s.workers[w])
  {
    hide FinOk, Apart, LogOk;
    var x := s.workers[w];
    OneWorker(s, w);
    if x.at.Runs? || x.at.RanJob? {
      BusyIsCurrent(s, w);
      FreeIsDone(s, x.node, x.at.j);
    } else if x.at.Has? && Current(s, x) {
      var t := x.at.t;
      FreeIsDone(s, x.node, t);
      assert HoldsJob(s, x, x.node, t) ==> Held(s, x.node, t);
    } else if x.at.Draws? && Current(s, x) {
      FreeIsDone(s, x.node, 0);
    }
  }

  /** Publishing resets the tickets first; nobody left in a ticket loop can draw one that counts. */
  lemma OpenInv(s: Shards, counts: seq<nat>)
    requires Inv(s) && Ready(s, Open(counts)) && SafeToOpen(s, counts)
    ensures Inv(Do(s, Open(counts)))
  {
    var s' := Do(s, Open(counts));
    forall w | 0 <= w < |s'.workers| ensures WorkerOk(s', s'.workers[w]) { OpenWorker(s, counts, w); }
    OpenQuiet(s, counts);
  }

  lemma OpenQuiet(s: Shards, counts: seq<nat>)
    requires Inv(s) && Ready(s, Open(counts))
    ensures var s' := Do(s, Open(counts)); CountOk(s') && Apart(s') && FinOk(s') && LogOk(s')
  {
    var s' := Do(s, Open(counts));
    forall n: nat, j: nat ensures !JustRan(s', n, j) {
      FreeIsDone(s, n, j);
      assert JustRan(s', n, j) == JustRan(s, n, j);
    }
    hide JustRan;
  }

  /** `++current_gen_` makes everyone in a loop a leftover of an earlier call. */
  lemma GoInv(s: Shards)
    requires Inv(s) && Ready(s, Go)
    ensures Inv(Do(s, Go))
  {
    var s' := Do(s, Go);
    forall w | 0 <= w < |s'.workers| ensures WorkerOk(s', s'.workers[w]) && Current(s', s'.workers[w]) == Current(s, s.workers[w]) {
      OneWorker(s, w);
    }
    GoFin(s);
    assert forall n: nat, j: nat :: JustRan(s', n, j) == JustRan(s, n, j);
    hide JustRan;
  }

  lemma GoFin(s: Shards)
    requires Inv(s) && Ready(s, Go)
    ensures Apart(Do(s, Go)) && FinOk(Do(s, Go))
  {
    hide LogOk;
    var s' := Do(s, Go);
    forall w, n: nat, j: nat | 0 <= w < |s.workers| ensures HoldsJob(s', s'.workers[w], n, j) == HoldsJob(s, s.workers[w], n, j) {
      OneWorker(s, w);
    }
    hide HoldsJob;
    assert forall n: nat, j: nat :: Held(s', n, j) == Held(s, n, j);
  }

  lemma MoveInv(s: Shards, m: Move)
    requires Inv(s) && Ready(s, m) && (m.Open? ==> SafeToOpen(s, m.counts))
    ensures Inv(Do(s, m))
  {
    hide Inv;
    match m
    case Open(counts) => OpenInv(s, counts);
    case Go => GoInv(s);
    case Turn(w) =>
      match s.workers[w].at {
        case Draws => DrawTurn(s, w);
        case Runs(_) => RunTurn(s, w);
        case RanJob(_) => FinishTurn(s, w);
        case _ => QuietTurn(s, w);
      }
  }
}
