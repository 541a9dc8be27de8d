/** TaskQueue: producers push under a mutex, one worker runs the tasks, `sync` polls a flag without the mutex.
    One step is one locked region or one atomic access; pushing is two, because `sync` can look in between. */
module TaskQueues {

  datatype Place =
    | Waiting           // at the condition variable
    | Running(task: nat)
    | Ran               // task returned, about to lock and perhaps set the flag
    | Gone              // processTasks has returned

  /** `pushing`: a producer has pushed and still holds the mutex.  `pushed` and `ran` are history: all tasks
      ever pushed and all finished ones, in order. */
  datatype Queue = Queue(tasks: seq<nat>, syncFlag: bool, exitFlag: bool, pushing: bool, worker: Place,
                         pushed: seq<nat>, ran: seq<nat>)

  datatype Act = Push(task: nat) | ClearFlag | Worker | Exit

  function Fresh(): Queue {
    Queue([], true, false, false, Waiting, [], [])
  }

  predicate WorkerCan(q: Queue) {
    match q.worker
    case Waiting => !q.pushing && (q.tasks != [] || q.exitFlag)
    case Running(_) => true
    case Ran => !q.pushing
    case Gone => false
  }

  predicate Can(q: Queue, a: Act) {
    match a
    case Push(_) => !q.pushing && !q.exitFlag
    case ClearFlag => q.pushing
    case Worker => WorkerCan(q)
    case Exit => !q.pushing && !q.exitFlag
  }

  function WorkerStep(q: Queue): Queue
    requires WorkerCan(q)
  {
    match q.worker
    case Waiting => if q.tasks == [] then q.(worker := Gone) else q.(worker := Running(q.tasks[0]), tasks := q.tasks[1..])
    case Running(t) => q.(worker := Ran, ran := q.ran + [t])
    case Ran => q.(worker := Waiting, syncFlag := q.syncFlag || q.tasks == [])
  }

  function Step(q: Queue, a: Act): Queue
    requires Can(q, a)
  {
    match a
    case Push(t) => q.(tasks := q.tasks + [t], pushed := q.pushed + [t], pushing := true)
    case ClearFlag => q.(syncFlag := false, pushing := false)
    case Worker => WorkerStep(q)
    case Exit => q.(exitFlag := true)
  }

  ghost predicate Reachable(q: Queue) {
    exists acts :: Feasible(Fresh(), acts) && After(Fresh(), acts) == q
  }

  predicate Feasible(q: Queue, acts: seq<Act>)
    decreases |acts|
  {
    acts == [] || (Can(q, acts[0]) && Feasible(Step(q, acts[0]), acts[1..]))
  }

  function After(q: Queue, acts: seq<Act>): Queue
    requires Feasible(q, acts)
    decreases |acts|
  {
    if acts == [] then q else After(Step(q, acts[0]), acts[1..])
  }

  /** Tasks the worker has taken and not finished. */
  function InHand(q: Queue): seq<nat> {
    if q.worker.Running? then [q.worker.task] else []
  }

  predicate Inv(q: Queue) {
    && q.pushed == q.ran + InHand(q) + q.tasks
    && (q.pushing ==> q.tasks != [] && !q.exitFlag)
    && (q.worker.Gone? ==> q.exitFlag && q.tasks == [])
    && (q.syncFlag ==> !q.worker.Running? && !q.worker.Ran? && |q.tasks| == if q.pushing then 1 else 0)
    && (!q.syncFlag ==> q.tasks != [] || q.worker.Running? || q.worker.Ran?)
  }

  lemma StepInv(q: Queue, a: Act)
    requires Inv(q) && Can(q, a)
    ensures Inv(Step(q, a))
  {
    if a.Worker? && q.worker.Waiting? && q.tasks != [] {
      assert q.tasks == [q.tasks[0]] + q.tasks[1..];
    }
  }

  lemma {:induction false} RunInv(q: Queue, acts: seq<Act>)
    requires Inv(q) && Feasible(q, acts)
    ensures Inv(After(q, acts))
    decreases |acts|
  {
    if acts != [] {
      StepInv(q, acts[0]);
      RunInv(Step(q, acts[0]), acts[1..]);
    }
  }

  lemma ReachableInv(q: Queue)
    requires Reachable(q)
    ensures Inv(q)
  {
    var acts :| Feasible(Fresh(), acts) && After(Fresh(), acts) == q;
    RunInv(Fresh(), acts);
  }

  /** Tasks run in the order they were pushed, none twice, none skipped. */
  lemma RunInOrder(q: Queue)
    requires Reachable(q)
    ensures |q.ran| <= |q.pushed| && q.ran == q.pushed[..|q.ran|]
  {
    ReachableInv(q);
  }

  /** The tasks whose `enqueue` has returned. */
  function Enqueued(q: Queue): seq<nat> {
    if q.pushing && |q.pushed| > 0 then q.pushed[..|q.pushed| - 1] else q.pushed
  }

  /** Wherever `sync` finds the flag set, exactly the tasks whose enqueue has returned are finished; and it
      finds it set as soon as they are and the worker is back at its wait, unless the next push has begun. */
  lemma SyncIff(q: Queue)
    requires Reachable(q)
    ensures q.syncFlag ==> q.ran == Enqueued(q)
    ensures q.ran == q.pushed && !q.worker.Ran? ==> q.syncFlag
  {
    ReachableInv(q);
    if q.ran == q.pushed {
      assert |q.pushed| == |q.ran| + |InHand(q)| + |q.tasks|;
    }
  }

  /** The worker leaves only after the destructor has begun and everything ever pushed has run. */
  lemma GoneMeansDrained(q: Queue)
    requires Reachable(q) && q.worker.Gone?
    ensures q.exitFlag && q.ran == q.pushed && q.syncFlag
  {
    ReachableInv(q);
  }

  // ----- Waiting ends.

  /** Steps until the worker has nothing left to do. */
  function Work(q: Queue): nat {
    3 * |q.tasks| + (match q.worker case Running(_) => 2 case Ran => 1 case _ => 0)
      + if q.exitFlag && !q.worker.Gone? then 1 else 0
  }

  lemma WorkerStepDecreases(q: Queue)
    requires WorkerCan(q)
    ensures Work(WorkerStep(q)) < Work(q)
  {
  }

  /** Left alone, the worker drains the queue: then `sync` is let through, and the destructor's join too. */
  lemma {:induction false} DrainsAlone(q: Queue) returns (acts: seq<Act>)
    requires Inv(q) && !q.pushing
    ensures Feasible(q, acts) && forall i :: 0 <= i < |acts| ==> acts[i].Worker?
    ensures var e := After(q, acts); e.syncFlag && e.ran == e.pushed == q.pushed && (q.exitFlag ==> e.worker.Gone?)
    decreases Work(q)
  {
    if WorkerCan(q) {
      WorkerStepDecreases(q);
      StepInv(q, Worker);
      var rest := DrainsAlone(WorkerStep(q));
      acts := [Worker] + rest;
      assert acts[1..] == rest;
    } else {
      acts := [];
    }
  }

  /** The object. */
  class TaskQueue {
    var tasks: seq<nat>
    var syncFlag: bool
    var exitFlag: bool
    var pushing: bool
    var worker: Place
    var pushed: seq<nat>
    var ran: seq<nat>

    function Q(): Queue
      reads this
    {
      Queue(tasks, syncFlag, exitFlag, pushing, worker, pushed, ran)
    }

    constructor ()
      ensures Q() == Fresh() && Inv(Q())
    {
      tasks, syncFlag, exitFlag, pushing, worker, pushed, ran := [], true, false, false, Waiting, [], [];
    }

    /** One pass of processTasks between two scheduling points; a task that returns is handed out. */
    method WorkerTurn() returns (finished: seq<nat>)
      requires Inv(Q()) && WorkerCan(Q())
      modifies this
      ensures Inv(Q()) && Q() == WorkerStep(old(Q())) && ran == old(ran) + finished
    {
      StepInv(Q(), Worker);
      finished := [];
      match worker {
        case Waiting =>
          if exitFlag && tasks == [] {
            worker := Gone;
          } else {
            worker, tasks := Running(tasks[0]), tasks[1..];
          }
        case Running(t) =>
          ran, worker, finished := ran + [t], Ran, [t];
        case Ran =>
          if tasks == [] { syncFlag := true; }
          worker := Waiting;
      }
    }

    /** enqueue: the worker may get turns before the mutex is taken, and finish its task while it is held. */
    method Enqueue(task: nat)
      requires Inv(Q()) && !pushing && !exitFlag
      modifies this
      ensures Inv(Q()) && !pushing && !exitFlag && !syncFlag
      ensures pushed == old(pushed) + [task] && old(ran) <= ran
    {
      WorkerTurns();
      StepInv(Q(), Push(task));
      tasks, pushed, pushing := tasks + [task], pushed + [task], true;
      WorkerTurns();
      StepInv(Q(), ClearFlag);
      syncFlag, pushing := false, false;
    }

    /** Any number of turns of the worker. */
    method WorkerTurns()
      requires Inv(Q())
      modifies this
      ensures Inv(Q()) && pushing == old(pushing) && exitFlag == old(exitFlag) && pushed == old(pushed) && old(ran) <= ran
    {
      var more: bool := *;
      while more && WorkerCan(Q())
        invariant Inv(Q()) && pushing == old(pushing) && exitFlag == old(exitFlag) && pushed == old(pushed) && old(ran) <= ran
        decreases Work(Q())
      {
        WorkerStepDecreases(Q());
        var finished := WorkerTurn();
        more := *;
      }
    }

    /** sync: spins on the flag while the worker goes on. */
    method Sync()
      requires Inv(Q()) && !pushing
      modifies this
      ensures Inv(Q()) && !pushing && exitFlag == old(exitFlag) && syncFlag && pushed == old(pushed) && ran == pushed
    {
      while !syncFlag
        invariant Inv(Q()) && !pushing && exitFlag == old(exitFlag) && pushed == old(pushed)
        decreases Work(Q())
      {
        WorkerStepDecreases(Q());
        var finished := WorkerTurn();
      }
    }

    /** The destructor: raise the exit flag, then join the worker. */
    method Destroy()
      requires Inv(Q()) && !pushing && !exitFlag
      modifies this
      ensures worker.Gone? && pushed == old(pushed) && ran == pushed
    {
      WorkerTurns();
      StepInv(Q(), Exit);
      exitFlag := true;
      while !worker.Gone?
        invariant Inv(Q()) && !pushing && exitFlag && pushed == old(pushed)
        decreases Work(Q())
      {
        WorkerStepDecreases(Q());
        var finished := WorkerTurn();
      }
    }
  }
}
