# A Dafny model of the xiaotu-moe native engine

The project models the concurrent and numerical core of the CPU mixture-of-experts engine under
`xiaotu-moe/csrc` and proves what that core is for. Run `dafny verify dfyconfig.toml`.

## The parts

- **The flat worker pool** (`FlatPool`, `FlatPoolRuns`, `NumaWorkPool`). One caller publishes a generation,
  persistent workers draw tickets from a counter that is never reset, re-anchor under a lock when the generation
  moves, and a countdown closes the call. The protocol is a step relation with one step per atomic operation or
  locked region; the class `NumaWorkPool` updates the shared fields in place, and each of its methods is one
  step of the relation. Exactly-once execution is proved for every interleaving of every history of flat calls,
  and so is the exact condition under which a call can be left waiting for ever.
- **The sharded worker pool** (`ShardPool`, `ShardPoolInv`, `ShardPoolRuns`, `ShardPoolProgress`,
  `ShardedWorkPool`). Per-node counters are reset before the generation moves, and a re-anchoring worker keeps
  the function it copied for the earlier call. A call is therefore not always sound. The project proves exactly
  when it is, exactly when it can be lost, and shows an ordinary hand-over of two calls that goes wrong.
- **The work-stealing scheduler** (`StaticPartition`, `WorkStealing`, `WorkStealingRuns`, `BackendNuma`). Even
  contiguous ranges, stealing inside a node, a status barrier.
- **The block-partitioned engine** (`Tables`, `MoeLayout`, `MoeReorder`, `Moe`, `MoeJobs`, `MoeBatches`,
  `MoeForward`, `MoeMeaning`), from the constructor to `forward`. Decoding a task id into (expert, block) is
  right only because the scheduler cuts a job the way the constructor cut the weights; the class `MOE` is proved
  on top of the scheduler class and of that agreement.
- **MOE_V2** (`MoeV2`, `MoeV2Sliced`, `MoeV2Engine`, `MoeV2Grouped`, `MoeV2Meaning`). Grouping, gathering, row
  slicing, per-node shards and persistent scratch against the plain per-token loop. With shards the class runs
  its weight-reading phases through the class `ShardedWorkPool`.
- **Packed weights** (`Packed4Decode`, `VectorSums`, `Packed4Rows`, `Packed4General`, `Packed4`,
  `Packed4Meaning`, `ScaleTables`, `Fp8`, `Fp8Meaning`). E2M1 values follow section 5.3.3 and E8M0 scales
  section 5.4.1 of the OCP Microscaling Formats (MX) Specification v1.0.
- **VNNI packing** (`Vnni`, `VnniPack`, `VnniPackK`, `VnniTiles`, `VnniDot`, `VnniKernel`, `VnniMeaning`).
  Bit-level packers and unpackers, the integer dot products, and the single-row kernels over a packed matrix.
- **The task queue** (`TaskQueue`).

The `...Meaning` modules say what the outputs are without the functions the loops are proved against: from the
raw arrays, the routing and the inputs alone.

## What the proofs say about the code

- The flat pool is safe without conditions. A flat call can hang if and only if every worker is still inside its
  ticket loop when the call is published (`FlatPoolRuns.CanHangIff`); such a state is reachable.
- The sharded pool is safe if and only if no worker still in a ticket loop can draw, or already holds, a ticket
  that reads as a job of the new call (`ShardPoolRuns.SoundIffSafe`). Otherwise a finished call's function runs
  again; in `ShardPoolRuns.HandOverGoesWrong` it runs in place of the new call's. The comment at
  `xiaotu-moe/csrc/moe/numa_pool.hpp:794-800` says that re-anchoring executes a job of the new generation; the
  code keeps the old function. `README.md:232` of the repository lists an occasional race of this pool.
- The general packed-4 path reads shifted nibbles when an odd group length makes a vector chunk start at an odd
  column. It is right for all data if and only if groupK is even, or groupK < 8, or groupK + 8 > K
  (`Packed4General.AlignedIff`).
- The E4M3 decoder halves subnormal numbers: it scales them by 2^-7, the format by 2^-6 (`Fp8.DecodeExactIff`).
- The loop of `MOE::forward` ends if and only if group_max_len > 0, or the batch is below group_min_len, or
  empty (`MoeBatches.ForwardEndsIff`); ten tokens with group_min_len 10 and group_max_len 0 go round for ever
  (`MoeBatches.TenForever`). `MoeForward.MOE.Forward` has exactly that condition as a precondition, and its loop
  is tied to the theorem's rounds.
- Phases A and B of the sharded `forward_many_nsliced` are two sharded calls in a row, the hand-over that can go
  wrong. `MoeV2Engine.MOE_V2.ForwardMany` gives the right output whenever both calls are safe to open and every
  node with jobs is attended; otherwise its outcome names the call and the pool state that lacked it.

## Assumptions

- Atomic operations are sequentially consistent; relaxed ones are treated alike. Waiting, on a condition
  variable or by spinning, means "enabled when its predicate holds".
- Fewer than 2^64 tickets are drawn over a pool's life, and a sharded call has fewer than 2^64 jobs in all.
  Ticket subtraction and the countdown wrap as `size_t` does.
- Histories of the flat model contain flat calls only, histories of the sharded model sharded calls only.
  Worker-to-node maps are inputs.
- Publishing a sharded call is two steps, because the tickets are reset before the generation moves; the
  lock-held statements on either side of the bump are one step each.
- Where an engine hands jobs to a pool or to the scheduler, the callbacks are run one at a time in an arbitrary
  order after the call, each as often as the pool says it ran; they write disjoint cells. For `moe.cpp` and for
  the sharded phases of `moe_v2.hpp` that list comes from the verified class (`BackendNuma`, `ShardedWorkPool`);
  for its flat calls it is every job once, which the flat pool guarantees of every call that returns.
- In `moe.cpp` and `moe_v2.hpp` floats are an abstract type with uninterpreted operations and GEMMs are
  functions of one input row and one block or row of weights; the order of operations is kept. In the packed and
  FP8 kernels floats are reals; the VNNI kernels use exact integers with explicit 32-bit wrap-around.
- Row-major matrices are sequences or arrays with explicit offset arithmetic; sizes are multiples of the stride.

## Model

| member | source | states |
|---|---|---|
| FlatPoolRuns.StepInv | xiaotu-moe/csrc/moe/numa_pool.hpp:408-515 | every atomic operation or locked region of any worker or of the caller keeps the flat invariant: records of all generations, snapshots that match them, no ticket held twice, every drawn ticket in range held or finished, `remaining_` = n minus the finished ones, log exact |
| FlatPoolRuns.ReachableInv | xiaotu-moe/csrc/moe/numa_pool.hpp:408-515 | the invariant holds after any interleaving of any history of flat calls, for any number of workers |
| FlatPoolRuns.CallRunsEachIndexOnce | xiaotu-moe/csrc/moe/numa_pool.hpp:408-515 | in every interleaving, between publishing a call and its return the log of executions grows by exactly one entry per index in [0, n), all with that call's function, and by nothing else |
| FlatPoolRuns.ExactlyOnceAtRest | xiaotu-moe/csrc/moe/numa_pool.hpp:408-515 | whenever the caller is between calls, every index of every call so far has run exactly once and nothing else ever ran |
| FlatPoolRuns.FinishedCallsStaySilent | xiaotu-moe/csrc/moe/numa_pool.hpp:833-886 | after a call has returned no continuation runs its function again, even through workers that drew a ticket while bound to an older generation |
| FlatPoolRuns.TicketBound | xiaotu-moe/csrc/moe/numa_pool.hpp:422-443 | `counter_ - start_ <= n_ + nt_` in every reachable state with a written record |
| FlatPool.CheckTicket | xiaotu-moe/csrc/moe/numa_pool.hpp:833-855 | a worker that finds its own generation still live has a ticket past the range, or an index nobody else runs or ran: reading `counter_` after the bump is what makes the lock-free check sound |
| FlatPool.LoadStartInv | xiaotu-moe/csrc/moe/numa_pool.hpp:434-443 | reading `counter_` after `++current_gen_` puts every ticket drawn so far below the new range |
| FlatPool.RunIsFresh | xiaotu-moe/csrc/moe/numa_pool.hpp:833-855 | an index about to run belongs to the call in flight, comes with its function and has never run |
| FlatPool.FinishCount | xiaotu-moe/csrc/moe/numa_pool.hpp:840-853 | the countdown lowers `remaining_` by one without ever underflowing |
| FlatPoolRuns.AttendedNeverStuck | xiaotu-moe/csrc/moe/numa_pool.hpp:768-778 | an attended call always has a next step until it has returned |
| FlatPoolRuns.WorkerStepDecreases | xiaotu-moe/csrc/moe/numa_pool.hpp:768-886 | every worker step lowers a measure bounded by the undrawn tickets and the workers' positions |
| FlatPoolRuns.WorkersMustStop | xiaotu-moe/csrc/moe/numa_pool.hpp:768-886 | workers take at most `Measure` steps before the caller has to move |
| FlatPoolRuns.OneWaiterSuffices | xiaotu-moe/csrc/moe/numa_pool.hpp:867-876 | a call published while at least one worker is outside its ticket loop cannot be left hanging |
| FlatPoolRuns.CanHangIff | xiaotu-moe/csrc/moe/numa_pool.hpp:856-877 | some interleaving leaves the call waiting for ever if and only if every worker is inside its ticket loop when it is published |
| FlatPoolRuns.HangIsReachable | xiaotu-moe/csrc/moe/numa_pool.hpp:856-877 | a concrete history of two workers and one call of two indices reaches a state from which the next call can hang |
| NumaWorkPools.NumaWorkPool.WorkerTurn | xiaotu-moe/csrc/moe/numa_pool.hpp:779-886 | one turn of a worker in `worker_loop`, in place, is exactly one step of the protocol |
| NumaWorkPools.NumaWorkPool.CallerTurn | xiaotu-moe/csrc/moe/numa_pool.hpp:422-443 | one statement of the publishing caller, or its return, in place, is one step of the protocol |
| NumaWorkPools.NumaWorkPool.ParallelFor | xiaotu-moe/csrc/moe/numa_pool.hpp:408-515 | under any scheduler the method ends; it returns with each index run exactly once, or it is stuck, and the latter only if all workers were inside the ticket loop at publication |
| ShardPoolInv.MoveInv | xiaotu-moe/csrc/moe/numa_pool.hpp:573-646 | every step of workers and caller keeps the sharded invariant, an opening step when it is safe: no job held twice, drawn jobs held or finished, `remaining_` = total minus finished, log exact, leftovers of earlier calls harmless |
| ShardPoolInv.OpenInv | xiaotu-moe/csrc/moe/numa_pool.hpp:595-616 | resetting the tickets before the generation moves keeps it when no worker left in a loop can draw, or holds, a ticket that reads as a new job |
| ShardPoolInv.FreeIsDone | xiaotu-moe/csrc/moe/numa_pool.hpp:611-646 | when a call returns nobody holds one of its jobs, every node's tickets are used up and exactly its jobs are finished |
| ShardPoolRuns.CallRunsEachJobOnce | xiaotu-moe/csrc/moe/numa_pool.hpp:573-646 | a call opened when that was safe returns, in every interleaving, with each (node, local) job run exactly once, with its own function, and nothing else run |
| ShardPoolRuns.MoveLog | xiaotu-moe/csrc/moe/numa_pool.hpp:779-831 | only a worker pinned to node n ever runs a job of node n, and only for the newest call |
| ShardPoolRuns.SoundIffSafe | xiaotu-moe/csrc/moe/numa_pool.hpp:602-609 | the exact condition: a call keeps its promises in every interleaving if and only if, when it is opened, no worker left in a ticket loop can draw or holds a ticket that reads as one of its jobs |
| ShardPoolRuns.QuiescentIsSound | xiaotu-moe/csrc/moe/numa_pool.hpp:602-609 | with every worker outside its ticket loop any next call is sound |
| ShardPoolRuns.HandOverGoesWrong | xiaotu-moe/csrc/moe/numa_pool.hpp:793-823 | the condition can fail in an ordinary hand-over: two workers, two calls of one job, and the second call returns with the first call's job run twice and its own never |
| ShardPoolProgress.CanBeLostIff | xiaotu-moe/csrc/moe/numa_pool.hpp:573-646 | a call that is safe to open can be lost for ever if and only if some node with jobs has all its workers inside their ticket loops |
| ShardPoolProgress.NeverStuck | xiaotu-moe/csrc/moe/numa_pool.hpp:779-831 | while a served call has jobs left some worker can move |
| ShardPoolProgress.WorkersMustStop | xiaotu-moe/csrc/moe/numa_pool.hpp:779-831 | workers take at most `Measure` turns before the caller has to move |
| ShardPoolProgress.CanReturn | xiaotu-moe/csrc/moe/numa_pool.hpp:779-831 | a served call can always be brought to its return |
| ShardedWorkPools.ShardedWorkPool.WorkerTurn | xiaotu-moe/csrc/moe/numa_pool.hpp:779-831 | one turn in the sharded part of `worker_loop`, in place, is one step of the protocol; re-anchoring keeps the function copied for the old call |
| ShardedWorkPools.ShardedWorkPool.ParallelForSharded | xiaotu-moe/csrc/moe/numa_pool.hpp:573-646 | under any scheduler the method ends; no job runs twice, a returned call ran each job exactly once, it returns without touching the pool for an empty call, a pool of one, a node without a worker or too many nodes, it returns whenever every node with jobs has a worker outside its loop, in particular whenever all workers are outside and every present node has one, and otherwise it is stuck |
| ShardedWorkPools.ShardedWorkPool.WorkersSettle | xiaotu-moe/csrc/moe/numa_pool.hpp:779-831 | whatever turns the workers take between two calls, they run nothing |
| ShardedWorkPools.ShardedWorkPool.Serial | xiaotu-moe/csrc/moe/numa_pool.hpp:573-594 | the inline fallback runs each job of each node exactly once |
| StaticPartition.PartitionJob | xiaotu-moe/csrc/scheduler/backend_numa.cpp:264-296 | the dispatcher's ranges are disjoint, non-empty ones are the threads handed work, each node's threads slice exactly its interval, and it fails if and only if a node has no thread |
| StaticPartition.DealNode | xiaotu-moe/csrc/scheduler/backend_numa.cpp:279-295 | one node's tasks are cut into contiguous even parts following on from the previous node |
| StaticPartition.SplitFind | xiaotu-moe/csrc/scheduler/backend_numa.cpp:264-296 | every item of an even split lies in some part |
| StaticPartition.SplitUnique | xiaotu-moe/csrc/scheduler/backend_numa.cpp:264-296 | and in only one |
| WorkStealing.StepInv | xiaotu-moe/csrc/scheduler/backend_numa.cpp:256-348 | every load, store and fetch_add of dispatcher and threads keeps the invariant: ids drawn from a range are held or computed, once, by threads of the owner's node |
| WorkStealing.ComputeInv | xiaotu-moe/csrc/scheduler/backend_numa.cpp:311-337 | an id about to be computed lies in its owner's range, on the owner's node, in a live job, and has not been computed |
| WorkStealingRuns.ReachableInv | xiaotu-moe/csrc/scheduler/backend_numa.cpp:256-348 | the invariant and the counter bound hold after any interleaving of any sequence of jobs |
| WorkStealingRuns.ExactlyOnceOnReturn | xiaotu-moe/csrc/scheduler/backend_numa.cpp:298-302 | when the call returns each id of each thread's range has been computed exactly once and no other id at all |
| WorkStealingRuns.ComputedOnOwnersNode | xiaotu-moe/csrc/scheduler/backend_numa.cpp:323-340 | ids are only ever computed, by owner or thief, on the node whose range holds them, and before the call returns |
| WorkStealingRuns.CounterStaysNearEnd | xiaotu-moe/csrc/scheduler/backend_numa.cpp:311-337 | `curr` never exceeds `end` by more than the number of threads |
| WorkStealingRuns.NeverStuck | xiaotu-moe/csrc/scheduler/backend_numa.cpp:298-348 | while a job is open the dispatcher or some thread can move |
| WorkStealingRuns.ThreadStepDecreases | xiaotu-moe/csrc/scheduler/backend_numa.cpp:305-348 | every thread step lowers a measure |
| WorkStealingRuns.CallerStepDecreases | xiaotu-moe/csrc/scheduler/backend_numa.cpp:282-302 | every dispatcher step lowers a measure |
| BackendNumas.NodeOwnsItsInterval | xiaotu-moe/csrc/scheduler/backend_numa.cpp:264-296 | the threads of a node own exactly the ids of that node's interval |
| BackendNumas.BackendNuma.WorkerTurn | xiaotu-moe/csrc/scheduler/backend_numa.cpp:305-348 | one step of `process_tasks` in place is one step of the protocol |
| BackendNumas.BackendNuma.DoKWorkStealingJob | xiaotu-moe/csrc/scheduler/backend_numa.cpp:256-303 | under any scheduler the call ends; it fails if and only if a node has no thread, and otherwise the callbacks are exactly one per id in [0, k * nth), each on the node whose interval holds it |
| BackendNumas.EveryTaskOnce | xiaotu-moe/csrc/scheduler/backend_numa.cpp:264-296 | said of the ids alone: each id in [0, k * nth) runs exactly once, on the node whose even share of the blocks contains id / k, and no other id runs |
| MoeLayout.BlockTable | xiaotu-moe/csrc/moe/moe.cpp:104-124 | the constructor's block table is the even split of the blocks over the nodes |
| MoeLayout.TaskIsCell | xiaotu-moe/csrc/moe/moe.cpp:136-147 | every id the scheduler runs on a node decodes to a round below k and a block that node owns; the dividend is never negative |
| MoeLayout.CellIsTask | xiaotu-moe/csrc/moe/moe.cpp:136-147 | every (round, owned block) is the decoding of an id the scheduler runs on that node |
| MoeLayout.SameCellSameTask | xiaotu-moe/csrc/moe/moe.cpp:420-431 | two callbacks with the same (round, block) are the same callback |
| MoeLayout.JobEnumerates | xiaotu-moe/csrc/moe/moe.cpp:420-431 | the callbacks of a job decode to every (round, block) exactly once |
| MoeLayout.OneTaskPerNode | xiaotu-moe/csrc/moe/moe.cpp:125-134 | in the one-per-node job the id on node nid is nid, so `assert(nid == task_id)` never fails |
| Moes.AllocateNodes | xiaotu-moe/csrc/moe/moe.cpp:125-134 | after the allocation job every node has room for its blocks of every expert |
| Moes.LoadWeights | xiaotu-moe/csrc/moe/moe.cpp:104-175 | after construction slot expert * num_blocks + offset of node nid holds source block expert * nth + start_block + offset; it fails if and only if a node has no thread |
| Moes.LoadedMeans | xiaotu-moe/csrc/moe/moe.cpp:136-175 | the same with the even split written out |
| MoeReorder.Reorder | xiaotu-moe/csrc/moe/moe.cpp:523-541 | the counting pass and the prefix sums give every assignment the row `RowOf`, and every expert its offset and count |
| MoeReorder.RowInRange | xiaotu-moe/csrc/moe/moe.cpp:523-541 | rows lie below qlen * k |
| MoeReorder.RowsApart | xiaotu-moe/csrc/moe/moe.cpp:523-541 | no two assignments share a row |
| MoeReorder.ReorderIsBijection | xiaotu-moe/csrc/moe/moe.cpp:523-541 | every row below qlen * k belongs to exactly one assignment |
| MoeReorder.OffsetsFill | xiaotu-moe/csrc/moe/moe.cpp:536-540 | the expert blocks together are exactly the qlen * k rows |
| MoeForward.MOE.constructor | xiaotu-moe/csrc/moe/moe.cpp:95-250 | construction establishes the object invariant: both weight arrays dealt to the nodes, buffers of the configured sizes |
| MoeForward.MOE.Job | xiaotu-moe/csrc/moe/moe.cpp:420-431 | a job of the object enumerates all (round, block) cells, each on the node that stores the block |
| MoeForward.MOE.GateUpOne | xiaotu-moe/csrc/moe/moe.cpp:420-458 | single-token gate/up: every (rank, block) of the buffer is the expert's hidden block |
| MoeForward.MOE.DownOne | xiaotu-moe/csrc/moe/moe.cpp:468-495 | single-token down: every (rank, block) is the expert's output block |
| MoeForward.MOE.SumUp | xiaotu-moe/csrc/moe/moe.cpp:498-512 | the in-place weighted sum into the first rank's row writes the rank-ordered mix of every (token, block), and no later callback reads an overwritten cell |
| MoeForward.MOE.ForwardOne | xiaotu-moe/csrc/moe/moe.cpp:381-513 | a single token's output is the reference expert mix, the rest of the output unchanged |
| MoeForward.MOE.Gather | xiaotu-moe/csrc/moe/moe.cpp:580-609 | every assignment's row of the gathered input is its token's row |
| MoeForward.MOE.GateUpMany | xiaotu-moe/csrc/moe/moe.cpp:613-675 | batched gate/up leaves every assignment's hidden blocks in its row |
| MoeForward.MOE.DownMany | xiaotu-moe/csrc/moe/moe.cpp:691-722 | batched down leaves every assignment's output blocks in its row |
| MoeForward.MOE.ForwardMany | xiaotu-moe/csrc/moe/moe.cpp:514-760 | a batch through reorder, gather, row-blocked GEMMs and in-place sums gives each token the reference mix, inside the group_max_len * routed_expert_num buffers |
| MoeForward.MOE.Forward | xiaotu-moe/csrc/moe/moe.cpp:764-798 | whenever the loop ends at all, each token's output is the reference mix that the single-token path computes, whatever the group lengths, in exactly the rounds of `MoeBatches.After`; tokens past the batch are untouched |
| MoeMeaning.ForwardSteps | xiaotu-moe/csrc/moe/moe.cpp:498-512 | from the weight tensors, the routing and the inputs: every written output block is the stored end of the chain scale(value 0, weight 0), then mulAdd with value i and weight i in rank order, value i being the expert's down block times act(up, gate) of its rows |
| MoeMeaning.ForwardSum | xiaotu-moe/csrc/moe/moe.cpp:723-758 | in real numbers, for every linear reading of blocks and weights: an output block is the sum over the token's ranks of routing weight times expert output |
| MoeBatches.ForwardEndsIff | xiaotu-moe/csrc/moe/moe.cpp:772-797 | the loop of `forward` ends if and only if group_max_len > 0, or the batch is below group_min_len, or empty |
| MoeBatches.TenForever | xiaotu-moe/csrc/moe/moe.cpp:772-797 | ten tokens, group_min_len 10, group_max_len 0: after any number of rounds all ten remain |
| MoeV2.SpanFind | xiaotu-moe/csrc/moe/moe_v2.hpp:731-742 | for every number of nodes, chunks and sub-slices each row lies in some job's slice |
| MoeV2.SpanInside | xiaotu-moe/csrc/moe/moe_v2.hpp:731-742 | a job's slice lies inside its node's rows |
| MoeV2.ShardFillW13 | xiaotu-moe/csrc/moe/moe_v2.hpp:978-1005 | node n's region agrees with the full gate/up weights on the gate and up rows it owns, at unchanged offsets |
| MoeV2.ShardFillW2 | xiaotu-moe/csrc/moe/moe_v2.hpp:1009-1034 | the same for the down rows |
| MoeV2Engine.MOE_V2.JobReadsW13 | xiaotu-moe/csrc/moe/moe_v2.hpp:725-758 | every gate and up row that a job reads was copied to the region it reads from |
| MoeV2Engine.MOE_V2.JobReadsW2 | xiaotu-moe/csrc/moe/moe_v2.hpp:794-814 | every down row that a job reads was copied to the region it reads from |
| MoeV2Sliced.GateUpSlice | xiaotu-moe/csrc/moe/moe_v2.hpp:743-757 | a slice job completes its rows of the fused activation for every instance and keeps the rows of other jobs |
| MoeV2Sliced.DownSlice | xiaotu-moe/csrc/moe/moe_v2.hpp:812-813 | a down job completes its rows and keeps the rows of other jobs |
| MoeV2Engine.MOE_V2.Group | xiaotu-moe/csrc/moe/moe_v2.hpp:621-637 | lists, instance indices and active experts describe exactly the valid assignments, whatever an earlier call left behind |
| MoeV2Engine.MOE_V2.Gather | xiaotu-moe/csrc/moe/moe_v2.hpp:642-655 | each active expert's gathered rows are the input rows of its instances |
| MoeV2Engine.MOE_V2.PhaseA | xiaotu-moe/csrc/moe/moe_v2.hpp:718-785 | run in any order, for any chunking or shard count, the jobs that were handed out leave every active expert's activations exact |
| MoeV2Engine.MOE_V2.PhaseB | xiaotu-moe/csrc/moe/moe_v2.hpp:788-829 | run in any order, the jobs leave every active expert's down outputs exact |
| MoeV2Engine.AllStaged | xiaotu-moe/csrc/moe/moe_v2.hpp:832-843 | the cell phase C reads for a valid assignment is that assignment's expert output of this call: no cell left from an earlier call is read |
| MoeV2Engine.MOE_V2.Dispatch | xiaotu-moe/csrc/moe/moe_v2.hpp:722-815 | a phase's jobs come back from the sharded pool each exactly once, or the call was not safe to open in the state the pool is in, or it is stuck because a node with jobs was unattended; without shards it always succeeds |
| MoeV2Engine.MOE_V2.ForwardMany | xiaotu-moe/csrc/moe/moe_v2.hpp:601-851 | the sliced forward, and the sharded one whenever both sharded calls are safe to open and attended, equals the plain rank-ordered per-token sum, with uninterpreted float operations, for every history of the persistent scratch; otherwise the outcome says which call failed and why |
| MoeV2Meaning.TokenSteps | xiaotu-moe/csrc/moe/moe_v2.hpp:833-843 | from the weight tensors, the routing and the inputs: every output element of the sliced, sharded, grouped and per-token path is the end of the chain that starts at zero and does one multiply-add for each rank whose expert exists and whose weight is not zero |
| MoeV2Meaning.TokenSum | xiaotu-moe/csrc/moe/moe_v2.hpp:557-568 | in real numbers, for every linear reading: an output element is the sum over the ranks whose expert exists of routing weight times expert output |
| MoeV2Grouped.BuildLists | xiaotu-moe/csrc/moe/moe_v2.hpp:455-470 | per-expert lists hold exactly the valid assignments in increasing order |
| MoeV2Grouped.MakeJobs | xiaotu-moe/csrc/moe/moe_v2.hpp:500-513 | the chunks of each list cover it without overlap |
| MoeV2Grouped.InOneJob | xiaotu-moe/csrc/moe/moe_v2.hpp:500-513 | every valid assignment is at exactly one place of exactly one job |
| MoeV2Grouped.MOE_V2_Grouped.PhaseAct | xiaotu-moe/csrc/moe/moe_v2.hpp:518-532 | after phase 1 every valid assignment's activation is exact |
| MoeV2Grouped.MOE_V2_Grouped.PhaseDown | xiaotu-moe/csrc/moe/moe_v2.hpp:537-553 | after phase 2 every valid assignment's down output is exact |
| MoeV2Grouped.MOE_V2_Grouped.AllTokens | xiaotu-moe/csrc/moe/moe_v2.hpp:555-593 | the reduce of the grouped path and the direct loop leave the same rank-ordered sum |
| MoeV2Grouped.MOE_V2_Grouped.ForwardMany | xiaotu-moe/csrc/moe/moe_v2.hpp:443-593 | for any grouping factor and chunk size, grouped and per-token path give identical outputs, those of the plain per-token loop |
| Packed4Decode.TablesAgree | xiaotu-moe/csrc/moe/moe_v2_packed4.hpp:255-262 | the bf16 byte tables, the magnitude-times-sign form and the 16-entry table all give the E2M1 value of OCP MX v1.0, section 5.3.3 |
| Packed4Decode.Avx512IsNatural | xiaotu-moe/csrc/moe/moe_v2_packed4.hpp:264-293 | mask, shift, shuffles, interleaves and lane recombination put weight c of a group in lane c |
| Packed4Decode.Avx2IsPermuted | xiaotu-moe/csrc/moe/moe_v2_packed4.hpp:387-430 | the AVX2 decode puts weight kPerm[c] in position c |
| Packed4Decode.GeneralIsNatural | xiaotu-moe/csrc/moe/moe_v2_packed4.hpp:537-552 | the 8-wide decode of the general path is in natural order |
| Packed4Rows.Block4Avx512 | xiaotu-moe/csrc/moe/moe_v2_packed4.hpp:305-348 | four tokens with four round-robin accumulators each give the four elementwise scaled sums |
| Packed4Rows.RowAvx512 | xiaotu-moe/csrc/moe/moe_v2_packed4.hpp:349-362 | so does the single-token remainder |
| Packed4Rows.Permute | xiaotu-moe/csrc/moe/moe_v2_packed4.hpp:387-403 | the activation buffer is the row in decode order |
| Packed4Rows.Block4Avx2 | xiaotu-moe/csrc/moe/moe_v2_packed4.hpp:443-482 | the permuted 4-token block gives the elementwise scaled sums of the unpermuted rows |
| Packed4Rows.RowAvx2 | xiaotu-moe/csrc/moe/moe_v2_packed4.hpp:483-503 | so does the two-accumulator remainder |
| Packed4General.RowGeneral | xiaotu-moe/csrc/moe/moe_v2_packed4.hpp:520-602 | the general path with deferred scales and a lane-0 tail is the elementwise sum over the weights it decodes |
| Packed4General.AlignedIff | xiaotu-moe/csrc/moe/moe_v2_packed4.hpp:527-561 | those are the right weights for all data if and only if groupK is even, or shorter than 8, or K ends within 8 of the first group |
| Packed4General.Disagreement | xiaotu-moe/csrc/moe/moe_v2_packed4.hpp:527-561 | otherwise there is concrete data on which the path differs |
| Packed4.FastAvx512 | xiaotu-moe/csrc/moe/moe_v2_packed4.hpp:240-369 | the AVX512 path fills exactly the cells [n0, n1) of every row |
| Packed4.FastAvx2 | xiaotu-moe/csrc/moe/moe_v2_packed4.hpp:383-510 | the fast AVX2 path fills exactly those cells with the same values |
| Packed4.MatmulPacked4Group | xiaotu-moe/csrc/moe/moe_v2_packed4.hpp:209-619 | whichever path runs, each cell in [n0, n1) is what that path computes, all other cells unchanged, and degenerate sizes change nothing |
| Packed4.PathsAgree | xiaotu-moe/csrc/moe/moe_v2_packed4.hpp:209-619 | with aligned groups every path's cell is global * sum of A * E2M1 * scale |
| Packed4Meaning.ProductIs | xiaotu-moe/csrc/moe/moe_v2_packed4.hpp:209-619 | from the raw arrays: C[i*N + j] is global times the sum over k of A[i*K + k], the E2M1 value of nibble k of byte row j - rowshift, and the scale at (j/gn) * ceil(K/gk) + k/gk |
| Packed4Meaning.OthersUntouched | xiaotu-moe/csrc/moe/moe_v2_packed4.hpp:209-619 | a cell that changed lies in the first M rows and in columns [n0, n1) |
| Packed4Meaning.UnitProduct | xiaotu-moe/csrc/moe/moe_v2_packed4.hpp:221-228 | with a single one at A[i, k], cell (i, j) shows exactly weight (j, k) under its own scale |
| Packed4Meaning.SliceIs | xiaotu-moe/csrc/moe/moe_v2_packed4.hpp:792-798 | the fused buffer holds the products of the gate rows and, inter columns on, of the up rows |
| Packed4Meaning.SliceOthersUntouched | xiaotu-moe/csrc/moe/moe_v2_packed4.hpp:792-798 | a cell of the fused buffer that changed lies in the gate or up columns of the slice |
| Packed4Meaning.E8M0Is | xiaotu-moe/csrc/moe/moe_v2_packed4.hpp:106-111 | scale byte 127 is one and each next byte twice as much |
| Packed4.GateUpSliceBatch | xiaotu-moe/csrc/moe/moe_v2_packed4.hpp:769-799 | the gate slice and the up slice of a fused buffer are both filled and nothing else changes |
| ScaleTables.ScaleInside | xiaotu-moe/csrc/moe/moe_v2.hpp:318-328 | every byte of every scale lies inside its own expert's part of the buffer the constructor allocates, for one- and four-byte scales |
| ScaleTables.ScalesApart | xiaotu-moe/csrc/moe/moe_v2_packed4.hpp:776-785 | two weights share a scale byte if and only if they are in the same group of the same expert |
| ScaleTables.ScaleIndexInTable | xiaotu-moe/csrc/moe/moe_v2_packed4.hpp:224-228 | the index the kernels read is the scale's place in its expert's table and lies inside it |
| ScaleTables.OffsetIs | xiaotu-moe/csrc/moe/moe_v2.hpp:326-327 | buffer size and byte offset written out: E * nb * kb * width and (e * nb * kb + (n/gn) * kb + k/gk) * width |
| Fp8.Cell | xiaotu-moe/csrc/moe/moe_v2_fp8.hpp:50-79 | for every group length, dividing K or not, with the lane tail folded into lane 0, a cell is the elementwise scaled sum |
| Fp8.MatmulFp8Quant | xiaotu-moe/csrc/moe/moe_v2_fp8.hpp:38-99 | every cell of C[0..M)[0..N) is the elementwise product, the rest of C unchanged |
| Fp8.DecodeExactIff | xiaotu-moe/csrc/kernels/fp8_dequant.hpp:29-44 | the decoder returns the E4M3 value of a number if and only if it is not one of the subnormals |
| Fp8.DecodeIs | xiaotu-moe/csrc/kernels/fp8_dequant.hpp:29-44 | it is exact for normal numbers and returns half the value of subnormals |
| Fp8Meaning.ProductIs | xiaotu-moe/csrc/moe/moe_v2_fp8.hpp:38-99 | from the raw arrays: C[i*N + j] is the sum over k of A[i*K + k] * e4m3(W[j*K + k]) * S[(j/gn) * ceil(K/gk) + k/gk] |
| Fp8Meaning.UnitProduct | xiaotu-moe/csrc/moe/moe_v2_fp8.hpp:50-62 | with a single one at A[i, k], cell (i, j) shows exactly weight (j, k) under its own scale |
| Fp8Meaning.E4M3Anchors | xiaotu-moe/csrc/kernels/fp8_dequant.hpp:29-44 | the format's one, largest and smallest numbers |
| Fp8Meaning.E4M3Steps | xiaotu-moe/csrc/kernels/fp8_dequant.hpp:29-44 | the top bit is the sign, and one more in the exponent doubles a number |
| Fp8Meaning.NaNIsZero | xiaotu-moe/csrc/kernels/fp8_dequant.hpp:29-44 | the two NaN bytes, and only they, are read as zero by exception |
| Vnni.Transpose8IsTranspose | xiaotu-moe/csrc/moe/amx_gemm.cpp:554-584 | the 8 x 8 unpack, shuffle and permute network is the transpose |
| Vnni.Transpose16IsTranspose | xiaotu-moe/csrc/moe/amx_gemm.cpp:610-679 | the 16 x 16 network, in place in the source, is the transpose |
| VnniPack.PackQ40 | xiaotu-moe/csrc/moe/amx_gemm.cpp:850-876 | packed q4_0: each byte holds the two nibbles the tile layout calls for |
| VnniPack.RoundTripQ40 | xiaotu-moe/csrc/moe/amx_gemm.cpp:1184-1195 | unpacking the packed block gives tile[r * 64 + 4 * n + b] = quant of row n at 4 * r + b, minus 8 |
| VnniPackK.Load5KIs | xiaotu-moe/csrc/moe/amx_gemm.cpp:803-822 | the 5-bit quants are low nibble plus the right bit of the high plane |
| VnniPackK.Load6KIs | xiaotu-moe/csrc/moe/amx_gemm.cpp:824-844 | the 6-bit quants are low nibble plus the right two bits of the high plane |
| VnniPackK.High5Inverse | xiaotu-moe/csrc/moe/amx_gemm.cpp:936-957 | a high-bit plane gives back each row's fifth bit |
| VnniPackK.High6Inverse | xiaotu-moe/csrc/moe/amx_gemm.cpp:976-993 | a two-bit plane gives back each row's two high bits |
| VnniTiles.RoundTrip4K | xiaotu-moe/csrc/moe/amx_gemm.cpp:897-917 | Q4_K: unpack after pack returns every quant of every row in its tile position |
| VnniTiles.RoundTrip5K | xiaotu-moe/csrc/moe/amx_gemm.cpp:1224-1253 | Q5_K: the same through the one-bit plane |
| VnniTiles.RoundTrip6K | xiaotu-moe/csrc/moe/amx_gemm.cpp:1255-1290 | Q6_K: the same through the two-bit plane, minus 32 |
| VnniDot.PackB8 | xiaotu-moe/csrc/moe/amx_gemm.cpp:1036-1058 | q8_0 packing with 128 times each column's byte sum stored as compensation |
| VnniKernel.ConvertB | xiaotu-moe/csrc/moe/amx_gemm.cpp:1611-1624 | q4_0 and q8_0: the tiles of the converted matrix are the packed 16-row blocks in (n, k) order |
| VnniKernel.TileSlots | xiaotu-moe/csrc/moe/amx_gemm.cpp:491-522 | the slots of different tiles do not overlap and stay inside N * row_size bytes |
| VnniKernel.SlotsFill | xiaotu-moe/csrc/moe/amx_gemm.cpp:491-522 | together they fill those bytes: every byte lies in the slot of exactly one tile |
| VnniDot.BlockSums8 | xiaotu-moe/csrc/moe/amx_gemm.cpp:1766-1835 | sum (a + 128) * b minus compensation is the exact signed dot product, without int32 overflow |
| VnniKernel.Kernel | xiaotu-moe/csrc/moe/amx_gemm.cpp:1629-1835 | the q4_0 and q8_0 kernels for M = 1 give every column's scaled sum, over all blocks, of the exact integer products of the unpacked quants |
| VnniMeaning.PackAndMultiply | xiaotu-moe/csrc/moe/amx_gemm.cpp:1611-1835 | packing a q4_0 or q8_0 matrix and running its kernel gives the plain dot products, over all 32 * KB positions, of the dequantised activation row and the dequantised weight rows |
| VnniDot.BlockSums4 | xiaotu-moe/csrc/moe/amx_gemm.cpp:1629-1699 | q4_0, per column and block: sum a * q - 8 * sum a equals sum a * (q - 8), without int32 overflow |
| TaskQueues.RunInOrder | xiaotu-moe/csrc/scheduler/task_queue.cpp:43-66 | tasks run in the order they were pushed, none skipped, none twice |
| TaskQueues.SyncIff | xiaotu-moe/csrc/scheduler/task_queue.cpp:38-41 | where `sync` finds the flag set exactly the tasks whose enqueue has returned are finished, and it is set once they are and the worker is back at its wait |
| TaskQueues.GoneMeansDrained | xiaotu-moe/csrc/scheduler/task_queue.cpp:47-52 | the worker leaves only after the destructor has begun and everything has run |
| TaskQueues.DrainsAlone | xiaotu-moe/csrc/scheduler/task_queue.cpp:43-66 | left alone the worker drains the queue, lets `sync` through and, once told to, exits |
| TaskQueues.TaskQueue.Enqueue | xiaotu-moe/csrc/scheduler/task_queue.cpp:29-36 | one more task, and the flag is down when it returns |
| TaskQueues.TaskQueue.Sync | xiaotu-moe/csrc/scheduler/task_queue.cpp:38-41 | ends, with everything pushed finished |
| TaskQueues.TaskQueue.Destroy | xiaotu-moe/csrc/scheduler/task_queue.cpp:17-27 | ends, with the worker gone and everything pushed finished |

## Left out

- Mixed histories of flat and sharded calls: a flat-loop worker re-anchors without looking at `sharded_call_`, so nothing is claimed for them.
- `stop_`, the destructor of the pool, the 300 s watchdog, tracing, profiling and the `EXIT` status: no result depends on them.
- Discovery of CPUs and nodes, pinning, memory mapping and binding, huge pages: inputs or no observable effect on values.
- An unlocked read of `node_nj_` while the caller resizes it: the worker's read is one step, the caller's writes another.
- `init_func_`, `finalize_func_` and `do_work` of the scheduler: no caller in the modelled code passes or uses them.
- An exception thrown after some nodes were already handed work: the model stops at the failing call.
- MoeForward.MOE.ForwardOne: input conversion (`to_float`, `from_float`), the fp32-buffer mode, separate gate and up buffers and the re-quantisation job between the phases are folded into the abstract kernels.
- MoeForward.MOE.ForwardMany: the same conversions are folded into the kernels.
- MoeForward.MOE.Forward: the same, and nothing is claimed of a run that does not end.
- Hidden and intermediate sizes that are not multiples of the stride: the code leaves the remainder uncomputed.
- MoeV2Engine.MOE_V2.PhaseA: the jobs run after the pool call and one at a time, instead of concurrently inside it; the same holds for the other phases.
- MoeV2Engine.MOE_V2.PhaseB: the same.
- MoeV2Engine.MOE_V2.ForwardMany: the source makes the flat call of phase C and the sharded calls on one pool; the model keeps their histories apart. Socket replicas are identical copies, so the flat path reads the full weights; chunk counts are any positive numbers instead of the environment heuristics.
- Scale buffers inside MOE_V2: the weight-row abstraction carries the scales; their addressing is in `ScaleTables`.
- Failure of a shard's memory mapping: the constructor then uses the unsharded path, which is modelled.
- Packed4.MatmulPacked4Group: null scales and the INT4 table are not modelled, floats are reals without overflow, and the reserved E8M0 byte 255 reads as 2^128.
- Fp8.MatmulFp8Quant: rounding and the no-scale table of ones are not modelled.
- VnniKernel.Kernel: block scales are reals; their half-precision encoding is not modelled.
- VnniTiles.RoundTrip4K: quants only; repacking the scales and minima of the K formats is not modelled, nor are their dot-product kernels.
- q4_1 and iq4_xs packing: the same transposes with other tables.
- The M = 32 AMX tile kernels with double buffering, and `unpack_A`.
- SiLU and exp numerics, bf16 conversion, llamafile and ggml internals: uninterpreted.
- `backend.cpp`, `linear.cpp`, `mlp.cpp`, `shared_mem_buffer.cpp`, Python bindings, CUDA hooks: plumbing or the k = 1 case of the modelled engine.
- TaskQueues: the source constructor starts the worker before it stores `sync_flag` and `exit_flag` (task_queue.cpp:11-15), and the worker's exit path returns with the mutex still locked (task_queue.cpp:47-52); the model starts after both stores and releases the mutex.
- TaskQueues.TaskQueue.Enqueue: enqueueing after destruction has begun is not modelled.
