/** When a sharded call returns: exactly when every node with jobs has a worker outside its ticket loop. */
module ShardPoolProgress {
  import opened ShardPool
  import opened ShardPoolInv
  import opened ShardPoolRuns

  /** Worker x of node n works for the newest call or has yet to see it. */
  predicate Serves(s: Shards, n: nat, x: Pinned) {
    x.node == n && (Current(s, x) || (!InLoop(x) && (x.gen < s.gen || s.phase.Reset?)))
  }

  ghost predicate HasServer(s: Shards, n: nat) {
    exists w :: 0 <= w < |s.workers| && Serves(s, n, s.workers[w])
  }

  /** Every node has all its jobs drawn or somebody to draw them. */
  ghost predicate Served(s: Shards) {
    |s.counts| <= |s.tickets| && forall n :: 0 <= n < |s.counts| && s.tickets[n] < s.counts[n] ==> HasServer(s, n)
  }

  lemma ServerTurns(s: Shards, n: nat, w: nat)
    requires WorkerReady(s, w) && WorkerOk(s, s.workers[w]) && !s.phase.Free?
    requires Serves(s, n, s.workers[w]) && n < |s.counts| && s.tickets[n] < s.counts[n]
    ensures Serves(TurnOf(s, w), n, TurnOf(s, w).workers[w])
  {
  }

  lemma ServerStays(s: Shards, m: Move, n: nat, w: nat)
    requires w < |s.workers| && WorkerOk(s, s.workers[w]) && Ready(s, m) && !m.Open? && (s.phase.Await? ==> m.Turn?) && !s.phase.Free?
    requires Serves(s, n, s.workers[w]) && n < |s.counts| && n < |s.tickets| && s.tickets[n] < s.counts[n]
    ensures Serves(Do(s, m), n, Do(s, m).workers[w])
  {
    if m == Turn(w) {
      ServerTurns(s, n, w);
    } else if m.Turn? {
      OthersStay(s, m.w, w);
    }
  }

  lemma OthersStay(s: Shards, v: nat, w: nat)
    requires WorkerReady(s, v) && w < |s.workers| && v != w
    ensures var s' := TurnOf(s, v); s'.workers[w] == s.workers[w] && s'.gen == s.gen && s'.phase == s.phase
  {
  }

  lemma ServedKept(s: Shards, m: Move)
    requires Inv(s) && Served(s) && Ready(s, m) && !m.Open? && (s.phase.Await? ==> m.Turn?) && !s.phase.Free?
    ensures Served(Do(s, m))
  {
    var s' := Do(s, m);
    forall n | 0 <= n < |s'.counts| && s'.tickets[n] < s'.counts[n] ensures HasServer(s', n) {
      assert s.tickets[n] < s.counts[n];
      var w :| 0 <= w < |s.workers| && Serves(s, n, s.workers[w]);
      OneWorker(s, w);
      ServerStays(s, m, n, w);
    }
  }

  /** While a served call has jobs left, some worker can move. */
  lemma NeverStuck(s: Shards) returns (w: nat)
    requires Inv(s) && Served(s) && s.phase.Await? && s.remaining > 0
    ensures Ready(s, Turn(w))
  {
    AllFinished(s);
    var n: nat, j: nat :| IsJob(s.counts, n, j) && (n, j) !in s.fin;
    if Issued(s, n, j) {
      assert Held(s, n, j);
      var v :| 0 <= v < |s.workers| && HoldsJob(s, s.workers[v], n, j);
      w := v;
    } else {
      var v :| 0 <= v < |s.workers| && Serves(s, n, s.workers[v]);
      w := v;
    }
    OneWorker(s, w);
  }

  // ----- A measure that every worker's turn lowers.

  function Weight(x: Pinned, gen: nat): nat {
    match x.at
    case Waits => if x.gen == gen then 0 else 8
    case Locks => 7
    case Bound => if x.gen == gen then 6 else 12
    case Draws => if x.gen == gen then 2 else 11
    case Has(t) => if x.gen != gen then 10 else if t < x.nj then 5 else 1
    case Late(_) => 9
    case Runs(_) => 4
    case RanJob(_) => 3
  }

  function Weights(ws: seq<Pinned>, gen: nat): nat {
    if ws == [] then 0 else Weight(ws[0], gen) + Weights(ws[1..], gen)
  }

  lemma {:induction false} WeightsPut(ws: seq<Pinned>, w: nat, x: Pinned, gen: nat)
    requires w < |ws|
    ensures Weights(ws[w := x], gen) + Weight(ws[w], gen) == Weights(ws, gen) + Weight(x, gen)
  {
    if w > 0 {
      WeightsPut(ws[1..], w - 1, x, gen);
      assert ws[w := x][1..] == ws[1..][w - 1 := x];
    } else {
      assert ws[w := x][1..] == ws[1..];
    }
  }

  /** Jobs not drawn yet. */
  function Undrawn(tickets: seq<nat>, counts: seq<nat>): nat
    requires |counts| <= |tickets|
    decreases |counts|
  {
    if counts == [] then 0
    else (if tickets[0] < counts[0] then counts[0] - tickets[0] else 0) + Undrawn(tickets[1..], counts[1..])
  }

  lemma {:induction false} UndrawnNext(tickets: seq<nat>, counts: seq<nat>, n: nat)
    requires |counts| <= |tickets| && n < |tickets|
    ensures Undrawn(tickets[n := tickets[n] + 1], counts)
         == Undrawn(tickets, counts) - (if n < |counts| && tickets[n] < counts[n] then 1 else 0)
    decreases n
  {
    var next := tickets[n := tickets[n] + 1];
    if counts == [] {
    } else if n > 0 {
      UndrawnNext(tickets[1..], counts[1..], n - 1);
      assert next[1..] == tickets[1..][n - 1 := tickets[1..][n - 1] + 1];
    } else {
      assert next[1..] == tickets[1..];
    }
  }

  function Measure(s: Shards): nat
    requires |s.counts| <= |s.tickets|
  {
    10 * Undrawn(s.tickets, s.counts) + Weights(s.workers, s.gen)
  }

  lemma TurnWeight(s: Shards, w: nat)
    requires WorkerReady(s, w) && WorkerOk(s, s.workers[w])
    ensures var s', x := TurnOf(s, w), s.workers[w];
      && s'.workers == s.workers[w := s'.workers[w]] && s'.gen == s.gen && s'.counts == s.counts
      && s'.tickets == (if x.at.Draws? then s.tickets[x.node := s.tickets[x.node] + 1] else s.tickets)
      && Weight(s'.workers[w], s.gen)
         < Weight(x, s.gen) + (if x.at.Draws? && x.node < |s.counts| && s.tickets[x.node] < s.counts[x.node] then 10 else 0)
  {
  }

  lemma TurnDecreases(s: Shards, w: nat)
    requires Inv(s) && WorkerReady(s, w)
    ensures |TurnOf(s, w).counts| <= |TurnOf(s, w).tickets| && Measure(TurnOf(s, w)) < Measure(s)
  {
    OneWorker(s, w);
    TurnWeight(s, w);
    WeightsPut(s.workers, w, TurnOf(s, w).workers[w], s.gen);
    UndrawnNext(s.tickets, s.counts, s.workers[w].node);
    hide Inv, TurnOf, Weight;
  }

  /** However the workers are scheduled, they take at most Measure(s) turns before the caller has to move. */
  lemma {:induction false} WorkersMustStop(s: Shards, ms: seq<Move>)
    requires Inv(s) && Possible(s, ms) && forall i :: 0 <= i < |ms| ==> ms[i].Turn?
    ensures |ms| <= Measure(s)
    decreases |ms|
  {
    if ms != [] {
      TurnDecreases(s, ms[0].w);
      MoveInv(s, ms[0]);
      WorkersMustStop(Do(s, ms[0]), ms[1..]);
    }
  }

  /** A served call can always be brought to its return. */
  lemma {:induction false} CanReturn(s: Shards) returns (ms: seq<Move>)
    requires Inv(s) && Served(s) && !s.phase.Reset?
    ensures NoOpen(ms) && Possible(s, ms) && Then(s, ms).phase.Free?
    decreases Measure(s)
  {
    if s.phase.Free? {
      ms := [];
    } else if s.remaining == 0 {
      ms := [Go];
      var s' := Do(s, Go);
      assert ms[1..] == [] && Possible(s', []) && Then(s, ms) == Then(s', []) == s';
    } else {
      var w := NeverStuck(s);
      TurnDecreases(s, w);
      MoveInv(s, Turn(w));
      ServedKept(s, Turn(w));
      hide Inv, Served, TurnOf, Measure;
      var rest := CanReturn(Do(s, Turn(w)));
      ms := [Turn(w)] + rest;
      assert ms[1..] == rest;
    }
  }

  // ----- Calls that never return.

  /** Node n has jobs and nobody who will ever draw them. */
  predicate Deserted(s: Shards, n: nat) {
    && s.phase.Await? && n < |s.counts| && n < |s.tickets| && 0 < s.counts[n] && s.tickets[n] == 0
    && forall w :: 0 <= w < |s.workers| && s.workers[w].node == n ==> Absent(s, s.workers[w], s.counts[n])
  }

  predicate Absent(s: Shards, x: Pinned, c: nat) {
    match x.at
    case Waits => x.gen == s.gen
    case Has(t) => t >= c && x.gen < s.gen
    case Late(t) => t >= c && x.gen < s.gen
    case _ => false
  }

  lemma DesertedIsOpen(s: Shards, n: nat)
    requires Inv(s) && Deserted(s, n)
    ensures s.remaining > 0
  {
    AllFinished(s);
    assert IsJob(s.counts, n, 0);
    assert (n, 0) in s.fin ==> Issued(s, n, 0);
  }

  lemma AbsentStays(s: Shards, n: nat, v: nat)
    requires Deserted(s, n) && WorkerReady(s, v) && s.workers[v].node == n
    ensures var s' := TurnOf(s, v);
      Absent(s', s'.workers[v], s.counts[n]) && s'.tickets == s.tickets && s'.counts == s.counts && s'.phase == s.phase
  {
    assert Absent(s, s.workers[v], s.counts[n]);
  }

  lemma OtherNodeTurn(s: Shards, n: nat, v: nat)
    requires WorkerReady(s, v) && s.workers[v].node != n && n < |s.tickets|
    ensures var s' := TurnOf(s, v);
      |s'.tickets| == |s.tickets| && s'.tickets[n] == s.tickets[n] && s'.counts == s.counts && s'.phase == s.phase && s'.workers[v].node != n
  {
  }

  lemma DesertedStays(s: Shards, n: nat, m: Move)
    requires Inv(s) && Deserted(s, n) && Ready(s, m)
    ensures m.Turn? && Deserted(Do(s, m), n)
  {
    DesertedIsOpen(s, n);
    hide Inv;
    var s' := Do(s, m);
    if s.workers[m.w].node == n { AbsentStays(s, n, m.w); } else { OtherNodeTurn(s, n, m.w); }
    forall w | 0 <= w < |s'.workers| && s'.workers[w].node == n ensures Absent(s', s'.workers[w], s.counts[n]) {
      if w != m.w { OthersStay(s, m.w, w); }
    }
  }

  lemma {:induction false} DesertedRun(s: Shards, n: nat, ms: seq<Move>)
    requires Inv(s) && Deserted(s, n) && Possible(s, ms)
    ensures !Then(s, ms).phase.Free?
    decreases |ms|
  {
    if ms != [] {
      DesertedStays(s, n, ms[0]);
      MoveInv(s, ms[0]);
      hide Inv, Deserted;
      DesertedRun(Do(s, ms[0]), n, ms[1..]);
    }
  }

  /** No continuation of s returns. */
  ghost predicate Lost(s: Shards) {
    forall ms :: NoOpen(ms) && Possible(s, ms) ==> !Then(s, ms).phase.Free?
  }

  /** Some interleaving loses the call `counts` opened in s. */
  ghost predicate CanBeLost(s: Shards, counts: seq<nat>)
    requires Ready(s, Open(counts))
  {
    exists ms :: NoOpen(ms) && Possible(Do(s, Open(counts)), ms) && Lost(Then(Do(s, Open(counts)), ms))
  }

  /** A node that has jobs has no worker outside its ticket loop. */
  predicate Unattended(s: Shards, n: nat) {
    forall w :: 0 <= w < |s.workers| && s.workers[w].node == n ==> InLoop(s.workers[w])
  }

  ghost predicate SomeUnattended(s: Shards, counts: seq<nat>) {
    exists n :: 0 <= n < |counts| && counts[n] > 0 && Unattended(s, n)
  }

  lemma UnattendedIsLost(s: Shards, counts: seq<nat>, n: nat)
    requires Inv(s) && Ready(s, Open(counts)) && SafeToOpen(s, counts)
    requires n < |counts| && counts[n] > 0 && Unattended(s, n)
    ensures CanBeLost(s, counts)
  {
    var s1 := Do(s, Open(counts));
    var s2 := Do(s1, Go);
    MoveInv(s, Open(counts));
    MoveInv(s1, Go);
    forall w | 0 <= w < |s2.workers| && s2.workers[w].node == n ensures Absent(s2, s2.workers[w], counts[n]) {
      OneWorker(s1, w);
      assert Harmless(s, s.workers[w], counts);
    }
    assert Deserted(s2, n);
    hide Inv, SafeToOpen, Do;
    forall ms | NoOpen(ms) && Possible(s2, ms) ensures !Then(s2, ms).phase.Free? { DesertedRun(s2, n, ms); }
    assert [Go][1..] == [] && Possible(s2, []) && Then(s1, [Go]) == Then(s2, []) == s2;
  }

  lemma AttendedIsServed(s: Shards, counts: seq<nat>)
    requires Inv(s) && Ready(s, Open(counts)) && !SomeUnattended(s, counts)
    ensures Served(Do(s, Open(counts)))
  {
    var s' := Do(s, Open(counts));
    forall n | 0 <= n < |s'.counts| && s'.tickets[n] < s'.counts[n] ensures HasServer(s', n) {
      assert !Unattended(s, n);
      var w :| 0 <= w < |s.workers| && s.workers[w].node == n && !InLoop(s.workers[w]);
      assert Serves(s', n, s'.workers[w]);
    }
  }

  lemma {:induction false} ServedRun(s: Shards, ms: seq<Move>)
    requires Inv(s) && Served(s) && NoOpen(ms) && Possible(s, ms)
    ensures !Lost(Then(s, ms))
    decreases |ms|
  {
    if ms == [] {
      ServedReturns(s);
    } else if s.phase.Free? || (s.phase.Await? && ms[0].Go?) {
      FreeRun(s, ms);
    } else {
      MoveInv(s, ms[0]);
      ServedKept(s, ms[0]);
      hide Inv, Served;
      ServedRun(Do(s, ms[0]), ms[1..]);
    }
  }

  lemma ServedReturns(s: Shards)
    requires Inv(s) && Served(s)
    ensures !Lost(s)
  {
    if s.phase.Reset? {
      var s' := Do(s, Go);
      MoveInv(s, Go);
      ServedKept(s, Go);
      var rest := CanReturn(s');
      assert ([Go] + rest)[1..] == rest && Possible(s, [Go] + rest);
      assert Then(s, [Go] + rest) == Then(s', rest);
    } else {
      var ms := CanReturn(s);
    }
  }

  lemma {:induction false} FreeRun(s: Shards, ms: seq<Move>)
    requires NoOpen(ms) && Possible(s, ms) && (s.phase.Free? || (ms != [] && s.phase.Await? && ms[0].Go?))
    ensures !Lost(Then(s, ms))
    decreases |ms|
  {
    if ms == [] {
      assert Possible(s, []) && Then(s, []) == s;
    } else {
      FreeRun(Do(s, ms[0]), ms[1..]);
    }
  }

  /** The exact condition: a call that is safe to open can be lost if and only if some node with jobs has all
      its workers still inside their ticket loops. */
  lemma CanBeLostIff(s: Shards, counts: seq<nat>)
    requires Reached(s) && Ready(s, Open(counts)) && SafeToOpen(s, counts)
    ensures CanBeLost(s, counts) <==> SomeUnattended(s, counts)
  {
    ReachedInv(s);
    if SomeUnattended(s, counts) {
      var n :| 0 <= n < |counts| && counts[n] > 0 && Unattended(s, n);
      UnattendedIsLost(s, counts, n);
    } else {
      AttendedIsServed(s, counts);
      MoveInv(s, Open(counts));
      forall ms | NoOpen(ms) && Possible(Do(s, Open(counts)), ms) ensures !Lost(Then(Do(s, Open(counts)), ms)) {
        ServedRun(Do(s, Open(counts)), ms);
      }
    }
  }
}
