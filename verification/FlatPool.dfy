/** The flat path of NumaWorkPool: one caller publishes generations, persistent workers draw
    tickets from a counter that is never reset.  One model step is one atomic operation or one
    region under work_mtx_, under sequential consistency. */
module FlatPool {

  /** 2^64: ticket arithmetic is on size_t. */
  const WORD: nat := 0x1_0000_0000_0000_0000

  /** `i = ticket - start` in size_t: a ticket below `start` wraps to a huge index. */
  function Slot(ticket: nat, start: nat): nat {
    (ticket as int - start as int) % WORD
  }

  // Where a worker stands in worker_loop.
  datatype Pc =
    | Outer                // at the generation wait
    | Locking              // saw a new generation, about to anchor under the lock
    | Draw                 // top of the ticket loop
    | Drawn(ticket: nat)   // fetch_add done, generation not yet re-read
    | Stale(ticket: nat)   // saw a newer generation, about to re-anchor under the lock
    | Run(i: nat)          // about to call the task on index i
    | Ran(i: nat)          // task returned, remaining_ not yet decremented

  /** A worker and its snapshot of the shared call record; `task` names the call whose function it copied. */
  datatype Worker = Worker(pc: Pc, gen: nat, start: nat, n: nat, task: nat)

  // Where the caller stands in parallel_for; the three middle phases hold work_mtx_.
  datatype Caller = Idle | Bumping | LoadingStart | StoringRemaining | Waiting

  datatype Call = Call(start: nat, n: nat)

  /** Shared fields, then three history variables: `calls[g]` is the record of generation g,
      `fin` the indices of the newest recorded call whose decrement is done, `log` every
      execution as (call, index). */
  datatype State = State(
    counter: nat, gen: nat, remaining: nat, start: nat, n: nat, task: nat,
    caller: Caller, workers: seq<Worker>,
    calls: seq<Call>, fin: set<nat>, log: multiset<(nat, nat)>)

  datatype Act = Work(w: nat) | Publish(size: nat) | Advance

  function Init(nt: nat): State {
    State(0, 0, 0, 0, 0, 0, Idle, seq(nt, _ => Worker(Outer, 0, 0, 0, 0)), [Call(0, 0)], {}, multiset{})
  }

  predicate Locked(s: State) {
    s.caller.Bumping? || s.caller.LoadingStart? || s.caller.StoringRemaining?
  }

  predicate WorkerEnabled(s: State, w: nat) {
    w < |s.workers| &&
    match s.workers[w].pc
    case Outer => s.gen != s.workers[w].gen
    case Locking => !Locked(s)
    case Stale(_) => !Locked(s)
    case _ => true
  }

  predicate Enabled(s: State, a: Act) {
    match a
    case Work(w) => WorkerEnabled(s, w)
    // With n <= 1 or a single worker the call runs inline and touches no shared state.
    case Publish(size) => s.caller.Idle? && size >= 2 && |s.workers| >= 2
    case Advance => !s.caller.Idle? && (s.caller.Waiting? ==> s.remaining == 0)
  }

  function Put(s: State, w: nat, x: Worker): State
    requires w < |s.workers|
  {
    s.(workers := s.workers[w := x])
  }

  /** The worker that copied the shared call record and holds `ticket`. */
  function Settle(ticket: nat, me: Worker): Worker {
    var i := Slot(ticket, me.start);
    me.(pc := if i >= me.n then Outer else Run(i))
  }

  function Snapshot(s: State): Worker {
    Worker(Draw, s.gen, s.start, s.n, s.task)
  }

  function WorkerStep(s: State, w: nat): State
    requires WorkerEnabled(s, w)
  {
    var me := s.workers[w];
    match me.pc
    case Outer => Put(s, w, me.(pc := Locking))
    case Locking => Put(s, w, Snapshot(s))
    case Draw => Put(s, w, me.(pc := Drawn(s.counter))).(counter := s.counter + 1)
    case Drawn(t) => Put(s, w, if s.gen == me.gen then Settle(t, me) else me.(pc := Stale(t)))
    case Stale(t) => Put(s, w, Settle(t, Snapshot(s)))
    case Run(i) => Put(s, w, me.(pc := Ran(i))).(log := s.log + multiset{(me.task, i)})
    case Ran(i) => Put(s, w, me.(pc := Draw)).(remaining := (s.remaining as int - 1) % WORD, fin := s.fin + {i})
  }

  function CallerStep(s: State): State
    requires Enabled(s, Advance)
  {
    match s.caller
    case Bumping => s.(gen := s.gen + 1, caller := LoadingStart)
    case LoadingStart =>
      s.(start := s.counter, calls := s.calls + [Call(s.counter, s.n)], fin := {}, caller := StoringRemaining)
    case StoringRemaining => s.(remaining := s.n, caller := Waiting)
    case Waiting => s.(caller := Idle)
  }

  function Step(s: State, a: Act): State
    requires Enabled(s, a)
  {
    match a
    case Work(w) => WorkerStep(s, w)
    case Publish(size) => s.(task := s.gen + 1, n := size, caller := Bumping)
    case Advance => CallerStep(s)
  }

  /** Fewer than 2^64 tickets are ever drawn. */
  predicate Fits(s: State) {
    s.counter + s.n + |s.workers| < WORD
  }

  // ----- Runs: any interleaving of worker and caller actions.

  predicate Feasible(s: State, acts: seq<Act>)
    decreases |acts|
  {
    acts == [] || (Enabled(s, acts[0]) && Fits(Step(s, acts[0])) && Feasible(Step(s, acts[0]), acts[1..]))
  }

  function After(s: State, acts: seq<Act>): State
    requires Feasible(s, acts)
    decreases |acts|
  {
    if acts == [] then s else After(Step(s, acts[0]), acts[1..])
  }

  ghost predicate Reachable(s: State) {
    exists nt: nat, acts :: Fits(Init(nt)) && Feasible(Init(nt), acts) && After(Init(nt), acts) == s
  }

  // ----- The invariant.

  /** Newest generation whose record is written, and the number of its tickets. */
  function Last(s: State): int {
    |s.calls| - 1
  }

  function Size(s: State): nat {
    if s.calls == [] then 0 else s.calls[Last(s)].n
  }

  function End(s: State): nat {
    s.start + Size(s)
  }

  predicate Holds(x: Worker) {
    !x.pc.Outer? && !x.pc.Locking? && !x.pc.Draw?
  }

  function Ticket(x: Worker): nat
    requires Holds(x)
  {
    match x.pc
    case Drawn(t) => t
    case Stale(t) => t
    case Run(i) => x.start + i
    case Ran(i) => x.start + i
  }

  predicate HoldsTicket(x: Worker, t: nat) {
    Holds(x) && Ticket(x) == t
  }

  predicate Busy(x: Worker) {
    x.pc.Run? || x.pc.Ran?
  }

  ghost predicate RecordInv(s: State) {
    && |s.calls| == (if s.caller.LoadingStart? then s.gen else s.gen + 1) >= 1
    && s.calls[0] == Call(0, 0)
    && (forall g :: 1 <= g < |s.calls| ==> s.calls[g].n >= 2)
    && s.start == s.calls[Last(s)].start <= s.counter
    && (s.caller.Bumping? || s.caller.LoadingStart? ==> s.n >= 2)
    && (!s.caller.Bumping? && !s.caller.LoadingStart? ==> s.n == Size(s))
    && s.task == (if s.caller.Bumping? then s.gen + 1 else s.gen)
  }

  ghost predicate WorkerInv(s: State, x: Worker) {
    && x.gen < |s.calls|
    && x.start == s.calls[x.gen].start && x.n == s.calls[x.gen].n && x.task == x.gen
    && (Holds(x) ==> Ticket(x) < s.counter)
    && (Holds(x) && x.gen == Last(s) ==> s.start <= Ticket(x))
    && (x.pc.Stale? || x.pc.Locking? ==> x.gen < s.gen)
    && (s.caller.StoringRemaining? ==> x.gen < s.gen)
    && (Busy(x) ==> s.caller.Waiting? && x.gen == Last(s) && x.pc.i < x.n)
  }

  ghost predicate WorkersInv(s: State) {
    forall w :: 0 <= w < |s.workers| ==> WorkerInv(s, s.workers[w])
  }

  /** No ticket is held by two workers. */
  ghost predicate TicketsDistinct(ws: seq<Worker>) {
    forall v, w :: 0 <= v < |ws| && 0 <= w < |ws| && v != w && Holds(ws[v]) ==> !HoldsTicket(ws[w], Ticket(ws[v]))
  }

  ghost predicate SomeoneHolds(ws: seq<Worker>, t: nat) {
    exists w :: 0 <= w < |ws| && HoldsTicket(ws[w], t)
  }

  /** Every drawn in-range ticket of the newest call is finished or held, never both. */
  ghost predicate FinInv(s: State) {
    && (forall i :: i in s.fin ==> i < Size(s) && s.start + i < s.counter && !SomeoneHolds(s.workers, s.start + i))
    && (forall i: nat :: i < Size(s) && s.start + i < s.counter && i !in s.fin ==> SomeoneHolds(s.workers, s.start + i))
  }

  ghost predicate RemainingInv(s: State) {
    match s.caller
    case Waiting => s.remaining + |s.fin| == s.n
    case StoringRemaining => s.fin == {}
    case _ => forall i: nat :: i < Size(s) ==> i in s.fin
  }

  ghost predicate JustRan(ws: seq<Worker>, i: nat) {
    exists w :: 0 <= w < |ws| && ws[w].pc == Ran(i)
  }

  /** How often index i of call g has run so far. */
  ghost function Expected(s: State, g: nat, i: nat): nat {
    if 1 <= g < Last(s) && i < s.calls[g].n then 1
    else if g == Last(s) && (i in s.fin || JustRan(s.workers, i)) then 1
    else 0
  }

  ghost predicate LogInv(s: State) {
    forall g: nat, i: nat :: s.log[(g, i)] == Expected(s, g, i)
  }

  /** A worker that has used up its one ticket past `end` for generation `last`. */
  predicate Over(x: Worker, last: int, end: nat) {
    ((x.pc.Outer? || x.pc.Locking?) && x.gen == last) || (Holds(x) && Ticket(x) >= end)
  }

  function OverCount(ws: seq<Worker>, last: int, end: nat): (c: nat)
    ensures c <= |ws|
  {
    if ws == [] then 0 else OverCount(ws[1..], last, end) + (if Over(ws[0], last, end) then 1 else 0)
  }

  ghost predicate BoundInv(s: State) {
    s.counter <= End(s) + OverCount(s.workers, Last(s), End(s))
  }

  ghost predicate Inv(s: State) {
    && RecordInv(s)
    && WorkersInv(s)
    && TicketsDistinct(s.workers)
    && FinInv(s)
    && RemainingInv(s)
    && LogInv(s)
    && BoundInv(s)
  }

  lemma {:induction false} OverCountPut(ws: seq<Worker>, w: nat, x: Worker, last: int, end: nat)
    requires w < |ws|
    ensures OverCount(ws[w := x], last, end) + (if Over(ws[w], last, end) then 1 else 0)
         == OverCount(ws, last, end) + (if Over(x, last, end) then 1 else 0)
  {
    if w > 0 {
      OverCountPut(ws[1..], w - 1, x, last, end);
      assert ws[w := x][1..] == ws[1..][w - 1 := x];
    } else {
      assert ws[w := x][1..] == ws[1..];
    }
  }

  lemma SlotIs(ticket: nat, start: nat)
    requires ticket < WORD && start < WORD
    ensures Slot(ticket, start) == if ticket >= start then ticket - start else ticket + WORD - start
  {
    if ticket < start {
      assert (ticket as int - start as int) % WORD == (ticket + WORD - start) % WORD;
    }
  }

  lemma InitInv(nt: nat)
    ensures Inv(Init(nt))
  {
  }

  // ----- Replacing one worker, one conjunct at a time.

  lemma HoldersPut(ws: seq<Worker>, w: nat, x: Worker)
    requires w < |ws| && (Holds(x) ==> HoldsTicket(ws[w], Ticket(x)))
    ensures TicketsDistinct(ws) ==> TicketsDistinct(ws[w := x])
    ensures forall t: nat :: SomeoneHolds(ws[w := x], t) ==> SomeoneHolds(ws, t)
    ensures forall t: nat :: SomeoneHolds(ws, t) && !(HoldsTicket(ws[w], t) && !Holds(x)) ==> SomeoneHolds(ws[w := x], t)
  {
    var ws' := ws[w := x];
    forall t: nat | SomeoneHolds(ws', t) ensures SomeoneHolds(ws, t) {
      var v :| 0 <= v < |ws'| && HoldsTicket(ws'[v], t);
      assert HoldsTicket(ws[v], t);
    }
    forall t: nat | SomeoneHolds(ws, t) && !(HoldsTicket(ws[w], t) && !Holds(x)) ensures SomeoneHolds(ws', t) {
      var v :| 0 <= v < |ws| && HoldsTicket(ws[v], t);
      assert HoldsTicket(ws'[v], t);
    }
  }

  lemma JustRanPut(ws: seq<Worker>, w: nat, x: Worker)
    requires w < |ws|
    ensures forall i: nat :: JustRan(ws[w := x], i) ==> x.pc == Ran(i) || JustRan(ws, i)
    ensures forall i: nat :: JustRan(ws, i) && ws[w].pc != Ran(i) ==> JustRan(ws[w := x], i)
    ensures forall i: nat :: x.pc == Ran(i) ==> JustRan(ws[w := x], i)
  {
    var ws' := ws[w := x];
    forall i: nat | JustRan(ws, i) && ws[w].pc != Ran(i) ensures JustRan(ws', i) {
      var v :| 0 <= v < |ws| && ws[v].pc == Ran(i);
      assert ws'[v].pc == Ran(i);
    }
    forall i: nat | x.pc == Ran(i) ensures JustRan(ws', i) {
      assert ws'[w].pc == Ran(i);
    }
  }

  lemma QuietWorkers(s: State, w: nat, x: Worker)
    requires WorkersInv(s) && w < |s.workers| && WorkerInv(s, x)
    ensures WorkersInv(Put(s, w, x))
  {
    var s' := Put(s, w, x);
    forall v | 0 <= v < |s'.workers| ensures WorkerInv(s', s'.workers[v]) {
      assert v != w ==> WorkerInv(s, s.workers[v]);
    }
  }

  lemma QuietFin(s: State, w: nat, x: Worker)
    requires FinInv(s) && TicketsDistinct(s.workers) && w < |s.workers|
    requires Holds(x) ==> HoldsTicket(s.workers[w], Ticket(x))
    requires Holds(s.workers[w]) && !Holds(x) ==> !(s.start <= Ticket(s.workers[w]) < End(s))
    ensures FinInv(Put(s, w, x)) && TicketsDistinct(Put(s, w, x).workers)
  {
    HoldersPut(s.workers, w, x);
  }

  lemma QuietLog(s: State, w: nat, x: Worker)
    requires LogInv(s) && w < |s.workers| && !s.workers[w].pc.Ran? && !x.pc.Ran?
    ensures LogInv(Put(s, w, x))
  {
    var s' := Put(s, w, x);
    JustRanPut(s.workers, w, x);
    forall g: nat, i: nat ensures s'.log[(g, i)] == Expected(s', g, i) {
      assert s.log[(g, i)] == Expected(s, g, i);
    }
  }

  lemma QuietBound(s: State, w: nat, x: Worker)
    requires BoundInv(s) && w < |s.workers|
    requires Over(s.workers[w], Last(s), End(s)) ==> Over(x, Last(s), End(s))
    ensures BoundInv(Put(s, w, x))
  {
    OverCountPut(s.workers, w, x, Last(s), End(s));
  }

  /** A step that neither draws, executes nor finishes: worker w keeps its ticket, or drops one out of range. */
  lemma QuietPut(s: State, w: nat, x: Worker)
    requires Inv(s) && w < |s.workers| && !s.workers[w].pc.Ran? && !x.pc.Ran?
    requires WorkerInv(s, x)
    requires Holds(x) ==> HoldsTicket(s.workers[w], Ticket(x))
    requires Holds(s.workers[w]) && !Holds(x) ==> !(s.start <= Ticket(s.workers[w]) < End(s))
    requires Over(s.workers[w], Last(s), End(s)) ==> Over(x, Last(s), End(s))
    ensures Inv(Put(s, w, x))
  {
    hide FinInv, LogInv, TicketsDistinct, WorkersInv, BoundInv;
    QuietBound(s, w, x);
    QuietWorkers(s, w, x);
    QuietFin(s, w, x);
    QuietLog(s, w, x);
  }

  // ----- Every action keeps the invariant.

  lemma WakeOrAnchor(s: State, w: nat)
    requires Inv(s) && WorkerEnabled(s, w) && (s.workers[w].pc.Outer? || s.workers[w].pc.Locking?)
    ensures Inv(WorkerStep(s, w))
  {
    assert WorkerInv(s, s.workers[w]);
    QuietPut(s, w, WorkerStep(s, w).workers[w]);
  }

  /** While anyone holds a ticket of the newest range, that call is still open. */
  lemma InRangeIsOpen(s: State, w: nat)
    requires Inv(s) && w < |s.workers| && Holds(s.workers[w])
    requires s.start <= Ticket(s.workers[w]) < End(s)
    ensures s.caller.Waiting? || s.caller.StoringRemaining?
  {
    var i := Ticket(s.workers[w]) - s.start;
    assert HoldsTicket(s.workers[w], s.start + i);
    assert SomeoneHolds(s.workers, s.start + i);
    assert i !in s.fin;
  }

  /** A worker still bound to the live generation finds its ticket past the range, or the call is
      open and the index unfinished: a publish cannot have slipped in between. */
  lemma CheckTicket(s: State, w: nat)
    requires Inv(s) && Fits(s) && WorkerEnabled(s, w) && s.workers[w].pc.Drawn?
    ensures Inv(WorkerStep(s, w))
  {
    var me := s.workers[w];
    assert WorkerInv(s, me);
    if s.gen == me.gen {
      SlotIs(me.pc.ticket, me.start);
      if s.start <= Ticket(me) < End(s) {
        InRangeIsOpen(s, w);
      }
    }
    hide FinInv, LogInv, TicketsDistinct;
    QuietPut(s, w, WorkerStep(s, w).workers[w]);
  }

  lemma ReAnchor(s: State, w: nat)
    requires Inv(s) && Fits(s) && WorkerEnabled(s, w) && s.workers[w].pc.Stale?
    ensures Inv(WorkerStep(s, w))
  {
    var me := s.workers[w];
    assert WorkerInv(s, me);
    SlotIs(me.pc.ticket, s.start);
    if s.start <= Ticket(me) < End(s) {
      InRangeIsOpen(s, w);
    }
    hide FinInv, LogInv, TicketsDistinct;
    QuietPut(s, w, WorkerStep(s, w).workers[w]);
  }

  lemma DrawHolders(s: State, w: nat)
    requires FinInv(s) && TicketsDistinct(s.workers) && WorkersInv(s) && w < |s.workers| && s.workers[w].pc.Draw?
    ensures FinInv(WorkerStep(s, w)) && TicketsDistinct(WorkerStep(s, w).workers)
  {
    var ws, ws' := s.workers, WorkerStep(s, w).workers;
    assert HoldsTicket(ws'[w], s.counter);
    forall t: nat | t < s.counter ensures SomeoneHolds(ws', t) <==> SomeoneHolds(ws, t) {
      if SomeoneHolds(ws, t) {
        var v :| 0 <= v < |ws| && HoldsTicket(ws[v], t);
        assert HoldsTicket(ws'[v], t);
      }
      if SomeoneHolds(ws', t) {
        var v :| 0 <= v < |ws'| && HoldsTicket(ws'[v], t);
        assert HoldsTicket(ws[v], t);
      }
    }
    assert forall v :: 0 <= v < |ws| && Holds(ws[v]) ==> WorkerInv(s, ws[v]) && Ticket(ws[v]) < s.counter;
  }

  lemma DrawTicket(s: State, w: nat)
    requires Inv(s) && w < |s.workers| && s.workers[w].pc.Draw?
    ensures Inv(WorkerStep(s, w))
  {
    hide FinInv, LogInv, TicketsDistinct, WorkersInv, BoundInv;
    DrawHolders(s, w);
    DrawWorkers(s, w);
    DrawBound(s, w);
    DrawLog(s, w);
  }

  lemma DrawWorkers(s: State, w: nat)
    requires WorkersInv(s) && w < |s.workers| && s.workers[w].pc.Draw? && RecordInv(s)
    ensures WorkersInv(WorkerStep(s, w))
  {
    var s' := WorkerStep(s, w);
    forall v | 0 <= v < |s'.workers| ensures WorkerInv(s', s'.workers[v]) {
      assert WorkerInv(s, s.workers[v]);
    }
  }

  /** Only a worker that has used up its ticket past the range stops drawing for it. */
  lemma DrawBound(s: State, w: nat)
    requires BoundInv(s) && w < |s.workers| && s.workers[w].pc.Draw?
    ensures BoundInv(WorkerStep(s, w))
  {
    OverCountPut(s.workers, w, WorkerStep(s, w).workers[w], Last(s), End(s));
  }

  lemma DrawLog(s: State, w: nat)
    requires LogInv(s) && w < |s.workers| && s.workers[w].pc.Draw?
    ensures LogInv(WorkerStep(s, w))
  {
    var s' := WorkerStep(s, w);
    QuietLog(s, w, s'.workers[w]);
    forall g: nat, i: nat ensures s'.log[(g, i)] == Expected(s', g, i) {
      assert Put(s, w, s'.workers[w]).log[(g, i)] == Expected(Put(s, w, s'.workers[w]), g, i);
    }
  }

  /** The index a worker is about to run belongs to the live call and has never run. */
  lemma RunIsFresh(s: State, w: nat)
    requires Inv(s) && w < |s.workers| && s.workers[w].pc.Run?
    ensures s.caller.Waiting? && s.workers[w].task == s.gen == Last(s) && s.workers[w].pc.i < s.n == Size(s)
    ensures s.workers[w].pc.i !in s.fin && !JustRan(s.workers, s.workers[w].pc.i)
    ensures s.log[(s.gen, s.workers[w].pc.i)] == 0
  {
    var me := s.workers[w];
    assert WorkerInv(s, me);
    assert HoldsTicket(me, s.start + me.pc.i) && SomeoneHolds(s.workers, s.start + me.pc.i);
    forall v | 0 <= v < |s.workers| ensures s.workers[v].pc != Ran(me.pc.i) {
      assert WorkerInv(s, s.workers[v]);
      assert s.workers[v].pc.Ran? ==> HoldsTicket(s.workers[v], s.start + s.workers[v].pc.i);
    }
    assert s.log[(s.gen, me.pc.i)] == Expected(s, s.gen, me.pc.i);
  }

  lemma ExecuteLog(s: State, w: nat)
    requires LogInv(s) && w < |s.workers| && s.workers[w].pc.Run?
    requires s.workers[w].task == Last(s)
    requires s.workers[w].pc.i !in s.fin && !JustRan(s.workers, s.workers[w].pc.i)
    ensures LogInv(WorkerStep(s, w))
  {
    var s' := WorkerStep(s, w);
    JustRanPut(s.workers, w, s'.workers[w]);
    forall g: nat, i: nat ensures s'.log[(g, i)] == Expected(s', g, i) {
      assert s.log[(g, i)] == Expected(s, g, i);
    }
  }

  /** Only the history variable `log` differs. */
  lemma SameButLog(s: State, s': State)
    requires s' == s.(log := s'.log) && RecordInv(s) && WorkersInv(s) && FinInv(s) && RemainingInv(s) && BoundInv(s)
    ensures RecordInv(s') && WorkersInv(s') && FinInv(s') && RemainingInv(s') && BoundInv(s')
  {
    assert forall x :: WorkerInv(s', x) == WorkerInv(s, x);
    hide WorkerInv;
  }

  lemma ExecuteTask(s: State, w: nat)
    requires Inv(s) && w < |s.workers| && s.workers[w].pc.Run?
    ensures Inv(WorkerStep(s, w))
  {
    hide FinInv, LogInv, TicketsDistinct, WorkersInv, BoundInv, RemainingInv;
    var s' := WorkerStep(s, w);
    RunIsFresh(s, w);
    ExecuteLog(s, w);
    BusyIsUnfinished(s, w);
    var x := s.workers[w].(pc := Ran(s.workers[w].pc.i));
    QuietFin(s, w, x);
    QuietWorkers(s, w, x);
    QuietBound(s, w, x);
    QuietRemaining(s, w, x);
    SameButLog(Put(s, w, x), s');
  }

  lemma QuietRemaining(s: State, w: nat, x: Worker)
    requires RecordInv(s) && RemainingInv(s) && w < |s.workers|
    ensures RecordInv(Put(s, w, x)) && RemainingInv(Put(s, w, x))
  {
  }

  lemma FinishLog(s: State, w: nat)
    requires LogInv(s) && w < |s.workers| && s.workers[w].pc.Ran?
    ensures LogInv(WorkerStep(s, w))
  {
    var s' := WorkerStep(s, w);
    JustRanPut(s.workers, w, s'.workers[w]);
    forall g: nat, i: nat ensures s'.log[(g, i)] == Expected(s', g, i) {
      assert s.log[(g, i)] == Expected(s, g, i);
      assert s'.fin == s.fin + {s.workers[w].pc.i};
      assert s.workers[w].pc == Ran(i) ==> JustRan(s.workers, i);
    }
  }

  lemma FinishHolders(s: State, w: nat)
    requires FinInv(s) && TicketsDistinct(s.workers) && w < |s.workers| && s.workers[w].pc.Ran? && WorkerInv(s, s.workers[w])
    requires s.start == s.workers[w].start && s.workers[w].n == Size(s)
    ensures FinInv(WorkerStep(s, w)) && TicketsDistinct(WorkerStep(s, w).workers)
    ensures s.workers[w].pc.i !in s.fin
  {
    var s', me := WorkerStep(s, w), s.workers[w];
    HoldersPut(s.workers, w, s'.workers[w]);
    assert HoldsTicket(me, s.start + me.pc.i) && SomeoneHolds(s.workers, s.start + me.pc.i);
    hide WorkerInv;
    forall v | 0 <= v < |s'.workers| ensures !HoldsTicket(s'.workers[v], s.start + me.pc.i) {
      assert v != w ==> !HoldsTicket(s.workers[v], Ticket(me));
    }
  }

  lemma {:induction false} FullIffCard(f: set<nat>, n: nat)
    requires forall i :: i in f ==> i < n
    ensures |f| <= n
    ensures |f| == n <==> forall i: nat :: i < n ==> i in f
  {
    if n == 0 {
      assert f == {};
    } else {
      FullIffCard(f - {n - 1}, n - 1);
      assert |f - {n - 1}| == |f| - (if n - 1 in f then 1 else 0);
      if |f| == n {
        forall i: nat | i < n ensures i in f { assert i != n - 1 ==> i in f - {n - 1}; }
      }
    }
  }

  /** Counting down never underflows: remaining_ is n minus the finished indices. */
  lemma FinishCount(s: State, w: nat)
    requires Inv(s) && Fits(s) && w < |s.workers| && s.workers[w].pc.Ran?
    ensures RemainingInv(WorkerStep(s, w)) && WorkerStep(s, w).remaining == s.remaining - 1 >= 0
    ensures FinInv(WorkerStep(s, w)) && TicketsDistinct(WorkerStep(s, w).workers)
  {
    var s' := WorkerStep(s, w);
    assert WorkerInv(s, s.workers[w]);
    hide LogInv, WorkersInv, BoundInv;
    FinishHolders(s, w);
    FullIffCard(s'.fin, Size(s'));
  }

  /** Only the countdown and the finished indices differ. */
  lemma SameButCount(s: State, s': State)
    requires s' == s.(remaining := s'.remaining, fin := s'.fin) && RecordInv(s) && WorkersInv(s) && BoundInv(s)
    ensures RecordInv(s') && WorkersInv(s') && BoundInv(s')
  {
    assert forall x :: WorkerInv(s', x) == WorkerInv(s, x);
    hide WorkerInv;
  }

  lemma FinishTask(s: State, w: nat)
    requires Inv(s) && Fits(s) && w < |s.workers| && s.workers[w].pc.Ran?
    ensures Inv(WorkerStep(s, w))
  {
    hide FinInv, LogInv, TicketsDistinct, WorkersInv, BoundInv, RemainingInv;
    var s', me := WorkerStep(s, w), s.workers[w];
    BusyIsUnfinished(s, w);
    FinishCount(s, w);
    FinishLog(s, w);
    var x := me.(pc := Draw);
    QuietWorkers(s, w, x);
    QuietBound(s, w, x);
    SameButCount(Put(s, w, x), s');
  }

  lemma PublishInv(s: State, size: nat)
    requires Inv(s) && Enabled(s, Publish(size))
    ensures Inv(Step(s, Publish(size)))
  {
    var s' := Step(s, Publish(size));
    forall w | 0 <= w < |s'.workers| ensures WorkerInv(s', s'.workers[w]) { NotBusy(s, w); }
    SameLog(s, s');
  }

  lemma NotBusy(s: State, w: nat)
    requires Inv(s) && !s.caller.Waiting? && w < |s.workers|
    ensures WorkerInv(s, s.workers[w]) && !Busy(s.workers[w])
  {
  }

  lemma SameLog(s: State, s': State)
    requires LogInv(s) && s'.workers == s.workers && s'.calls == s.calls && s'.fin == s.fin && s'.log == s.log
    ensures LogInv(s')
  {
    forall g: nat, i: nat ensures s'.log[(g, i)] == Expected(s', g, i) {
      assert s.log[(g, i)] == Expected(s, g, i);
    }
  }

  /** `++current_gen_`: the new record is not written yet, so no worker can bind to it. */
  lemma BumpInv(s: State)
    requires Inv(s) && s.caller.Bumping?
    ensures Inv(CallerStep(s))
  {
    var s' := CallerStep(s);
    forall w | 0 <= w < |s'.workers| ensures WorkerInv(s', s'.workers[w]) { NotBusy(s, w); }
    SameLog(s, s');
  }

  /** Reading `counter_` after the bump: every ticket drawn so far lies below the new range. */
  lemma LoadStartInv(s: State)
    requires Inv(s) && s.caller.LoadingStart?
    ensures Inv(CallerStep(s))
  {
    var s' := CallerStep(s);
    forall w | 0 <= w < |s'.workers| ensures WorkerInv(s', s'.workers[w]) { NotBusy(s, w); }
    forall g: nat, i: nat ensures s'.log[(g, i)] == Expected(s', g, i) {
      assert s.log[(g, i)] == Expected(s, g, i);
      assert !JustRan(s.workers, i) by {
        forall w | 0 <= w < |s.workers| ensures s.workers[w].pc != Ran(i) { NotBusy(s, w); }
      }
    }
  }

  lemma StoreRemainingInv(s: State)
    requires Inv(s) && s.caller.StoringRemaining?
    ensures Inv(CallerStep(s))
  {
    var s' := CallerStep(s);
    forall w | 0 <= w < |s'.workers| ensures WorkerInv(s', s'.workers[w]) { NotBusy(s, w); }
    SameLog(s, s');
  }

  lemma BusyIsUnfinished(s: State, w: nat)
    requires Inv(s) && w < |s.workers|
    ensures WorkerInv(s, s.workers[w])
    ensures Busy(s.workers[w]) ==> s.workers[w].pc.i < Size(s) && s.workers[w].pc.i !in s.fin
  {
    var x := s.workers[w];
    if Busy(x) {
      assert HoldsTicket(x, s.start + x.pc.i) && SomeoneHolds(s.workers, s.start + x.pc.i);
    }
  }

  /** The call returns at countdown zero: every index is finished and nobody is still running. */
  lemma ReturnInv(s: State)
    requires Inv(s) && s.caller.Waiting? && s.remaining == 0
    ensures Inv(CallerStep(s))
  {
    var s' := CallerStep(s);
    FullIffCard(s.fin, Size(s));
    forall w | 0 <= w < |s'.workers| ensures WorkerInv(s', s'.workers[w]) {
      BusyIsUnfinished(s, w);
    }
    SameLog(s, s');
  }
}
