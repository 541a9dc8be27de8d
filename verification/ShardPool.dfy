/** The sharded path of NumaWorkPool: per-node ticket counters that every call resets, and workers that run
    only their own node's jobs.  One model step is one atomic operation or one locked region; publishing is
    two, because the tickets are reset before the generation moves. */
module ShardPool {
  import FlatPool

  datatype Place =
    | Waits                // at the generation wait
    | Locks                // saw a new generation, about to anchor under the lock
    | Bound                // anchored, about to read its node's job count outside the lock
    | Draws                // top of the node's ticket loop
    | Has(t: nat)          // drew ticket t, generation not yet re-read
    | Late(t: nat)         // saw a newer generation, about to re-anchor
    | Runs(j: nat)         // about to call the task on (node, j)
    | RanJob(j: nat)       // task returned, remaining_ not yet decremented

  /** A pinned worker with its snapshot; `task` names the call whose function it copied. */
  datatype Pinned = Pinned(node: nat, at: Place, gen: nat, nj: nat, task: nat)

  datatype Phase = Free | Reset | Await

  /** `counts` is node_nj_ (its length is sharded_call_); `fin` (jobs of this call whose decrement is done) and
      `log` (executions as (call, node, index)) are history variables. */
  datatype Shards = Shards(tickets: seq<nat>, counts: seq<nat>, gen: nat, remaining: nat, task: nat, phase: Phase,
                           workers: seq<Pinned>, fin: set<(nat, nat)>, log: multiset<(nat, nat, nat)>)

  datatype Move = Turn(w: nat) | Open(counts: seq<nat>) | Go

  /** total in parallel_for_sharded. */
  function Total(counts: seq<nat>): nat {
    if counts == [] then 0 else Total(counts[..|counts| - 1]) + counts[|counts| - 1]
  }

  predicate WorkerReady(s: Shards, w: nat) {
    && w < |s.workers| && s.workers[w].node < |s.tickets|
    && (s.workers[w].at.Waits? ==> s.gen != s.workers[w].gen)
    && (s.workers[w].at.Locks? || s.workers[w].at.Late? ==> !s.phase.Reset?)
  }

  predicate Ready(s: Shards, m: Move) {
    match m
    case Turn(w) => WorkerReady(s, w)
    case Open(counts) => s.phase.Free? && 0 < |counts| <= |s.tickets| && Total(counts) < FlatPool.WORD
    case Go => s.phase.Reset? || (s.phase.Await? && s.remaining == 0)
  }

  function Set(s: Shards, w: nat, x: Pinned): Shards
    requires w < |s.workers|
  {
    s.(workers := s.workers[w := x])
  }

  /** Either run job t or leave the loop. */
  function Take(x: Pinned, t: nat): Pinned {
    x.(at := if t >= x.nj then Waits else Runs(t))
  }

  function TurnOf(s: Shards, w: nat): Shards
    requires WorkerReady(s, w)
  {
    var x := s.workers[w];
    match x.at
    case Waits => Set(s, w, x.(at := Locks))
    case Locks => Set(s, w, Pinned(x.node, Bound, s.gen, x.nj, s.task))
    case Bound =>
      Set(s, w, if x.node < |s.counts| then x.(at := Draws, nj := s.counts[x.node]) else x.(at := Waits))
    case Draws => Set(s, w, x.(at := Has(s.tickets[x.node]))).(tickets := s.tickets[x.node := s.tickets[x.node] + 1])
    case Has(t) => Set(s, w, if s.gen == x.gen then Take(x, t) else x.(at := Late(t)))
    // Re-anchoring takes the new generation and job count, but keeps the function copied for the old call.
    case Late(t) =>
      if x.node < |s.counts| then Set(s, w, Take(x.(gen := s.gen, nj := s.counts[x.node]), t)) else Set(s, w, x.(at := Waits))
    case Runs(j) => Set(s, w, x.(at := RanJob(j))).(log := s.log + multiset{(x.task, x.node, j)})
    case RanJob(j) =>
      Set(s, w, x.(at := Draws)).(remaining := (s.remaining as int - 1) % FlatPool.WORD, fin := s.fin + {(x.node, j)})
  }

  function ResetTickets(tickets: seq<nat>, n: nat): (r: seq<nat>)
    requires n <= |tickets|
    ensures |r| == |tickets| && forall i :: 0 <= i < |r| ==> r[i] == if i < n then 0 else tickets[i]
  {
    seq(n, _ => 0) + tickets[n..]
  }

  function Do(s: Shards, m: Move): Shards
    requires Ready(s, m)
  {
    match m
    case Turn(w) => TurnOf(s, w)
    case Open(counts) =>
      s.(tickets := ResetTickets(s.tickets, |counts|), counts := counts, task := s.gen + 1, fin := {}, phase := Reset)
    case Go =>
      if s.phase.Reset? then s.(gen := s.gen + 1, remaining := Total(s.counts), phase := Await)
      else s.(phase := Free)
  }

  function Start(nodes: seq<nat>, shards: nat): Shards {
    Shards(seq(shards, _ => 0), [], 0, 0, 0, Free, seq(|nodes|, w requires 0 <= w < |nodes| => Pinned(nodes[w], Waits, 0, 0, 0)), {}, multiset{})
  }

  predicate InLoop(x: Pinned) {
    !x.at.Waits? && !x.at.Locks?
  }

  /** A call with these job counts may be opened although worker x is still inside its ticket loop: it will
      neither draw a ticket of the new call nor does it hold one that reads as such. */
  predicate Harmless(s: Shards, x: Pinned, counts: seq<nat>) {
    InLoop(x) && x.node < |counts| ==>
      match x.at
      case Bound => counts[x.node] == 0
      case Draws => counts[x.node] == 0 && (x.gen == s.gen ==> x.nj == 0)
      case Has(t) => t >= counts[x.node]
      case Late(t) => t >= counts[x.node]
      case _ => true
  }

  predicate SafeToOpen(s: Shards, counts: seq<nat>) {
    forall w :: 0 <= w < |s.workers| ==> Harmless(s, s.workers[w], counts)
  }

  // ----- Runs.

  predicate Possible(s: Shards, ms: seq<Move>)
    decreases |ms|
  {
    ms == [] || (Ready(s, ms[0]) && Possible(Do(s, ms[0]), ms[1..]))
  }

  function Then(s: Shards, ms: seq<Move>): Shards
    requires Possible(s, ms)
    decreases |ms|
  {
    if ms == [] then s else Then(Do(s, ms[0]), ms[1..])
  }

  /** Every call of the run was opened when that was safe. */
  predicate Careful(s: Shards, ms: seq<Move>)
    requires Possible(s, ms)
    decreases |ms|
  {
    ms == [] || ((ms[0].Open? ==> SafeToOpen(s, ms[0].counts)) && Careful(Do(s, ms[0]), ms[1..]))
  }

  /** States of careful runs of any pool. */
  ghost predicate Reached(s: Shards) {
    exists nodes: seq<nat>, shards: nat, ms ::
      (forall w :: 0 <= w < |nodes| ==> nodes[w] < shards) && Possible(Start(nodes, shards), ms)
      && Careful(Start(nodes, shards), ms) && Then(Start(nodes, shards), ms) == s
  }

  predicate NoOpen(ms: seq<Move>) {
    forall i :: 0 <= i < |ms| ==> !ms[i].Open?
  }

  // ----- The invariant.

  /** Worker x draws for the newest call whose generation is published. */
  predicate Current(s: Shards, x: Pinned) {
    InLoop(x) && x.gen == s.gen && !s.phase.Reset?
  }

  /** Worker x has not left the ticket loop of an earlier call. */
  predicate Leftover(s: Shards, x: Pinned) {
    InLoop(x) && (x.gen < s.gen || s.phase.Reset?)
  }

  predicate HoldsJob(s: Shards, x: Pinned, n: nat, j: nat) {
    Current(s, x) && x.node == n && j < x.nj && (x.at == Has(j) || x.at == Runs(j) || x.at == RanJob(j))
  }

  ghost predicate Held(s: Shards, n: nat, j: nat) {
    exists w :: 0 <= w < |s.workers| && HoldsJob(s, s.workers[w], n, j)
  }

  predicate IsJob(counts: seq<nat>, n: nat, j: nat) {
    n < |counts| && j < counts[n]
  }

  /** Job (n, j) of the call has been drawn. */
  predicate Issued(s: Shards, n: nat, j: nat) {
    IsJob(s.counts, n, j) && n < |s.tickets| && j < s.tickets[n]
  }

  predicate CurrentOk(s: Shards, x: Pinned)
    requires x.node < |s.tickets|
  {
    && x.task == s.gen && !x.at.Late?
    && (!x.at.Bound? ==> x.node < |s.counts| && x.nj == s.counts[x.node])
    && (x.at.Has? ==> x.at.t < s.tickets[x.node])
    && (x.at.Runs? || x.at.RanJob? ==> x.at.j < x.nj && x.at.j < s.tickets[x.node])
  }

  predicate LeftoverOk(s: Shards, x: Pinned)
    requires x.node < |s.tickets|
  {
    && !x.at.Runs? && !x.at.RanJob?
    && (x.node < |s.counts| ==>
      match x.at
      case Has(t) => t >= s.counts[x.node]
      case Late(t) => t >= s.counts[x.node]
      case _ => s.counts[x.node] == 0)
    && (x.gen == s.gen && x.at.Draws? ==> s.tickets[x.node] >= x.nj)
    && (x.gen == s.gen && x.at.Has? ==> x.at.t >= x.nj)
  }

  predicate WorkerOk(s: Shards, x: Pinned) {
    && x.node < |s.tickets| && x.gen <= s.gen
    && (x.at.Locks? || x.at.Late? ==> x.gen < s.gen)
    && (InLoop(x) ==> x.task <= s.gen)
    && (Current(s, x) ==> CurrentOk(s, x))
    && (Leftover(s, x) ==> LeftoverOk(s, x))
  }

  predicate WorkersOk(s: Shards) {
    forall w :: 0 <= w < |s.workers| ==> WorkerOk(s, s.workers[w])
  }

  ghost predicate Apart(s: Shards) {
    forall v, w, n: nat, j: nat ::
      (0 <= v < |s.workers| && 0 <= w < |s.workers| && HoldsJob(s, s.workers[v], n, j) && HoldsJob(s, s.workers[w], n, j))
      ==> v == w
  }

  /** Every drawn job of the call is finished or held, never both. */
  ghost predicate FinOk(s: Shards) {
    && (forall n: nat, j: nat :: (n, j) in s.fin ==> Issued(s, n, j) && !Held(s, n, j))
    && (forall n: nat, j: nat :: Issued(s, n, j) && (n, j) !in s.fin ==> Held(s, n, j))
  }

  predicate CountOk(s: Shards) {
    && |s.counts| <= |s.tickets| && Total(s.counts) < FlatPool.WORD
    && s.task == (if s.phase.Reset? then s.gen + 1 else s.gen)
    && (s.phase.Reset? ==> s.fin == {})
    && (!s.phase.Reset? ==> s.remaining + |s.fin| == Total(s.counts))
    && (s.phase.Free? ==> s.remaining == 0)
  }

  ghost predicate JustRan(s: Shards, n: nat, j: nat) {
    exists w :: 0 <= w < |s.workers| && s.workers[w].node == n && s.workers[w].at == RanJob(j)
  }

  /** Jobs of the call in flight ran at most once, jobs of later calls not at all. */
  ghost predicate LogOk(s: Shards) {
    forall g: nat, n: nat, j: nat :: g >= s.task ==>
      s.log[(g, n, j)] == if g == s.task && ((n, j) in s.fin || JustRan(s, n, j)) then 1 else 0
  }

  ghost predicate Inv(s: Shards) {
    CountOk(s) && WorkersOk(s) && Apart(s) && FinOk(s) && LogOk(s)
  }

  /** A call waits for jobs and no worker can move. */
  ghost predicate Stuck(s: Shards) {
    s.phase.Await? && s.remaining > 0 && forall w: nat :: !WorkerReady(s, w)
  }

  /** The pool is between two calls. */
  ghost predicate Between(s: Shards) {
    Inv(s) && s.phase.Free?
  }
}
