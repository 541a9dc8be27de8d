/** MOE: weights dealt to the NUMA nodes block by block, and the forward passes as jobs of the work-stealing
    scheduler.  A block is `stride` consecutive floats of a row; kernels are uninterpreted. */
module Moes {
  import opened BackendNumas
  import opened MoeLayout
  import opened StaticPartition
  import opened Tables

  type Weights(!new)      // one block of rows of one expert's matrix
  type Input(!new)        // a token in hidden_type
  type Row(0, !new)       // a token converted for the gate and up kernels
  type Block(0, !new)     // `stride` floats
  type Factor(!new)       // a routing weight
  type Out(0, !new)       // `stride` outputs in hidden_type

  /** down reads a whole row; mulAdd(acc, x, w) is acc + x * w. */
  datatype Kernel = Kernel(load: Input -> Row, gate: (Weights, Row) -> Block, up: (Weights, Row) -> Block,
                           act: (Block, Block) -> Block, down: (Weights, seq<Block>) -> Block,
                           scale: (Block, Factor) -> Block, mulAdd: (Block, Block, Factor) -> Block, store: Block -> Out)

  /** The weights as the caller hands them over, expert by expert; `nth` and `nthDown` are the blocks of a
      hidden row and of an output row. */
  datatype Model = Model(kernel: Kernel, experts: nat, nth: nat, nthDown: nat,
                         gateUp: seq<(Weights, Weights)>, down: seq<Weights>)

  predicate Sized(m: Model) {
    |m.gateUp| == Area(m.experts, m.nth) && |m.down| == Area(m.experts, m.nthDown)
  }

  // ----- What a forward pass means.

  function HiddenBlock(m: Model, row: Row, e: nat, b: nat): Block
    requires Sized(m) && e < m.experts && b < m.nth
  {
    FlatBound(e, b, m.nth, m.experts);
    var w := m.gateUp[Flat(e, b, m.nth)];
    m.kernel.act(m.kernel.up(w.1, row), m.kernel.gate(w.0, row))
  }

  function HiddenRow(m: Model, row: Row, e: nat): seq<Block>
    requires Sized(m) && e < m.experts
  {
    seq(m.nth, b requires 0 <= b < m.nth => HiddenBlock(m, row, e, b))
  }

  function ExpertBlock(m: Model, row: Row, e: nat, b: nat): Block
    requires Sized(m) && e < m.experts && b < m.nthDown
  {
    FlatBound(e, b, m.nthDown, m.experts);
    m.kernel.down(m.down[Flat(e, b, m.nthDown)], HiddenRow(m, row, e))
  }

  /** The first n values weighted and added up, in rank order. */
  function Mix(kernel: Kernel, values: seq<Block>, ws: seq<Factor>, n: nat): Block
    requires 0 < n <= |values| && n <= |ws|
  {
    if n == 1 then kernel.scale(values[0], ws[0])
    else kernel.mulAdd(Mix(kernel, values, ws, n - 1), values[n - 1], ws[n - 1])
  }

  predicate Routed(m: Model, es: seq<nat>) {
    forall i :: 0 <= i < |es| ==> es[i] < m.experts
  }

  /** Block b of the output of token x, routed to experts es with weights ws. */
  function TokenBlock(m: Model, x: Input, es: seq<nat>, ws: seq<Factor>, b: nat): Out
    requires Sized(m) && Routed(m, es) && 0 < |es| == |ws| && b < m.nthDown
  {
    var values := seq(|es|, i requires 0 <= i < |es| => ExpertBlock(m, m.kernel.load(x), es[i], b));
    m.kernel.store(Mix(m.kernel, values, ws, |es|))
  }

  // ----- Buffers filled by a job, cell by cell.

  lemma WriteHolds<T>(buf: seq<T>, r: nat, b: nat, w: nat, v: T, r': nat, b': nat, v': T)
    requires b < w && b' < w && Flat(r, b, w) < |buf|
    ensures Holds(buf[Flat(r, b, w) := v], r, b, w, v)
    ensures Holds(buf, r', b', w, v') && ((r, b) == (r', b') ==> v == v') ==> Holds(buf[Flat(r, b, w) := v], r', b', w, v')
  {
    FlatInjective(r, b, r', b', w);
  }

  /** The first n tasks of a job have left f(cell) in their cells. */
  ghost predicate Filled<T>(buf: seq<T>, ran: seq<(nat, int)>, n: nat, nodes: nat, k: nat, nth: nat, f: Cell --> T)
  {
    && Enumerates(ran, nodes, k, nth) && n <= |ran|
    && (forall c: Cell :: c.row < k && c.block < nth ==> f.requires(c))
    && (forall j :: 0 <= j < n ==> HoldsTask(buf, nodes, k, nth, ran[j], f))
  }

  ghost predicate HoldsTask<T>(buf: seq<T>, nodes: nat, k: nat, nth: nat, task: (nat, int), f: Cell --> T)
    requires nodes > 0 && OnNode(nodes, k, nth, task.0, task.1)
    requires forall c: Cell :: c.row < k && c.block < nth ==> f.requires(c)
  {
    var c := CellOf(nodes, k, nth, task);
    Holds(buf, c.row, c.block, nth, f(c))
  }

  lemma FilledNone<T>(buf: seq<T>, ran: seq<(nat, int)>, nodes: nat, k: nat, nth: nat, f: Cell --> T)
    requires Enumerates(ran, nodes, k, nth) && forall c: Cell :: c.row < k && c.block < nth ==> f.requires(c)
    ensures Filled(buf, ran, 0, nodes, k, nth, f)
  {
  }

  lemma FilledOn<T>(buf: seq<T>, ran: seq<(nat, int)>, n: nat, nodes: nat, k: nat, nth: nat, f: Cell --> T)
    requires Filled(buf, ran, n, nodes, k, nth, f) && n < |ran|
    ensures OnNode(nodes, k, nth, ran[n].0, ran[n].1)
  {
  }

  lemma FilledStep<T>(buf: seq<T>, ran: seq<(nat, int)>, n: nat, nodes: nat, k: nat, nth: nat, f: Cell --> T, c: Cell)
    requires Filled(buf, ran, n, nodes, k, nth, f) && n < |ran| && c == CellOf(nodes, k, nth, ran[n])
    requires Flat(c.row, c.block, nth) < |buf|
    ensures Filled(buf[Flat(c.row, c.block, nth) := f(c)], ran, n + 1, nodes, k, nth, f)
  {
    hide Flat, CellOf, Holds, OnNode;
    forall j | 0 <= j < n + 1 ensures HoldsTask(buf[Flat(c.row, c.block, nth) := f(c)], nodes, k, nth, ran[j], f) {
      var d := CellOf(nodes, k, nth, ran[j]);
      assert j < n ==> HoldsTask(buf, nodes, k, nth, ran[j], f);
      WriteHolds(buf, c.row, c.block, nth, f(c), d.row, d.block, f(d));
    }
  }

  lemma FilledAll<T>(buf: seq<T>, ran: seq<(nat, int)>, nodes: nat, k: nat, nth: nat, f: Cell --> T)
    requires Filled(buf, ran, |ran|, nodes, k, nth, f)
    ensures forall r, b :: 0 <= r < k && 0 <= b < nth ==> Holds(buf, r, b, nth, f(Cell(r, b)))
  {
    hide Flat, CellOf, Holds;
    forall r, b | 0 <= r < k && 0 <= b < nth ensures Holds(buf, r, b, nth, f(Cell(r, b))) {
      var i :| CellRan(ran, i, nodes, k, nth, Cell(r, b));
      assert HoldsTask(buf, nodes, k, nth, ran[i], f);
    }
  }

  // ----- Loading the weights.

  /** Every node's slot expert * num_blocks + offset holds block start_block + offset of that expert. */
  ghost predicate Loaded<W>(local: seq<seq<W>>, src: seq<W>, experts: nat, nth: nat, nodes: nat) {
    && nodes > 0 && |local| == nodes
    && (forall nd, e, o :: 0 <= nd < nodes && 0 <= e < experts && 0 <= o < PartSize(nth, nodes, nd)
                           ==> SlotLoaded(local, src, nth, nodes, nd, e, o))
  }

  ghost predicate SlotLoaded<W>(local: seq<seq<W>>, src: seq<W>, nth: nat, nodes: nat, nd: nat, e: nat, o: nat)
    requires nodes > 0 && nd < |local|
  {
    var b := BlockOf(nth, nodes, nd);
    && Flat(e, o, b.num) < |local[nd]| && Flat(e, b.start + o, nth) < |src|
    && local[nd][Flat(e, o, b.num)] == src[Flat(e, b.start + o, nth)]
  }

  ghost predicate TableFor(blocks: seq<NumaBlock>, nth: nat, nodes: nat) {
    nodes > 0 && |blocks| == nodes && forall nid :: 0 <= nid < nodes ==> blocks[nid] == BlockOf(nth, nodes, nid)
  }

  lemma TaskRan(ran: seq<(nat, int)>, nodes: nat, k: nat, nth: nat, nd: nat, id: int) returns (i: nat)
    requires RanOnce(ran, nodes, k, nth) && OnNode(nodes, k, nth, nd, id)
    ensures i < |ran| && ran[i] == (nd, id)
  {
    assert multiset(ran)[(nd, id)] == 1 && (nd, id) in multiset(ran);
    i :| 0 <= i < |ran| && ran[i] == (nd, id);
  }

  lemma RanOnNode(ran: seq<(nat, int)>, nodes: nat, k: nat, nth: nat, i: nat)
    requires RanOnce(ran, nodes, k, nth) && i < |ran|
    ensures OnNode(nodes, k, nth, ran[i].0, ran[i].1)
  {
    assert ran[i] in multiset(ran) && multiset(ran)[(ran[i].0, ran[i].1)] > 0;
  }

  /** The allocation job: every node with blocks gets room for experts * num_blocks of them. */
  method AllocateNodes<W>(ran: seq<(nat, int)>, blocks: seq<NumaBlock>, experts: nat, nodes: nat, garbage: W) returns (local: seq<seq<W>>)
    requires nodes > 0 && |blocks| == nodes && RanOnce(ran, nodes, 1, nodes)
    ensures |local| == nodes && forall nd :: 0 <= nd < nodes ==> |local[nd]| == Area(experts, blocks[nd].num)
  {
    local := seq(nodes, _ => []);
    NodesRan(ran, nodes);
    for i := 0 to |ran|
      invariant |local| == nodes
      invariant forall nd :: 0 <= nd < nodes && blocks[nd].num == 0 ==> local[nd] == []
      invariant forall j :: 0 <= j < i ==> |local[ran[j].0]| == Area(experts, blocks[ran[j].0].num)
    {
      var nid, taskId := ran[i].0, ran[i].1;
      if blocks[nid].num != 0 {
        assert nid == taskId;
        local := local[nid := seq(Area(experts, blocks[nid].num), _ => garbage)];
      }
    }
    forall nd | 0 <= nd < nodes ensures |local[nd]| == Area(experts, blocks[nd].num) {
      OneTaskPerNode(nodes, nd, nd);
      var j := TaskRan(ran, nodes, 1, nodes, nd, nd);
      assert |local[ran[j].0]| == Area(experts, blocks[ran[j].0].num);
    }
  }

  lemma NodesRan(ran: seq<(nat, int)>, nodes: nat)
    requires nodes > 0 && RanOnce(ran, nodes, 1, nodes)
    ensures forall i :: 0 <= i < |ran| ==> ran[i].0 < nodes && ran[i].1 == ran[i].0
  {
    forall i | 0 <= i < |ran| ensures ran[i].0 < nodes && ran[i].1 == ran[i].0 {
      RanOnNode(ran, nodes, 1, nodes, i);
      OneTaskPerNode(nodes, ran[i].0, ran[i].1);
    }
  }

  lemma SlotBound(nth: nat, nodes: nat, experts: nat, nd: nat, e: nat, o: nat)
    requires nodes > 0 && nd < nodes && e < experts && o < PartSize(nth, nodes, nd)
    ensures var b := BlockOf(nth, nodes, nd);
      b.start + o < nth && Flat(e, o, b.num) < Area(experts, b.num) && Flat(e, b.start + o, nth) < Area(experts, nth)
  {
    NodeInterval(nodes, 1, nth, nd, 0);
    FlatBound(e, o, PartSize(nth, nodes, nd), experts);
    FlatBound(e, BlockOf(nth, nodes, nd).start + o, nth, experts);
  }

  ghost predicate TaskLoaded<W>(local: seq<seq<W>>, src: seq<W>, experts: nat, nth: nat, nodes: nat, task: (nat, int))
    requires nodes > 0 && |local| == nodes && OnNode(nodes, experts, nth, task.0, task.1)
  {
    TaskIsCell(nodes, experts, nth, task.0, task.1);
    var (e, o) := Decode(BlockOf(nth, nodes, task.0), experts, task.1);
    SlotLoaded(local, src, nth, nodes, task.0, e, o)
  }

  lemma CopyKeeps<W>(local: seq<seq<W>>, src: seq<W>, nth: nat, nodes: nat, nd: nat, e: nat, o: nat, nd': nat, e': nat, o': nat)
    requires nodes > 0 && |local| == nodes && nd < nodes && nd' < nodes
    requires var b := BlockOf(nth, nodes, nd); o < b.num && Flat(e, o, b.num) < |local[nd]| && Flat(e, b.start + o, nth) < |src|
    requires o' < PartSize(nth, nodes, nd')
    requires SlotLoaded(local, src, nth, nodes, nd', e', o') || (nd', e', o') == (nd, e, o)
    ensures var b := BlockOf(nth, nodes, nd);
      SlotLoaded(local[nd := local[nd][Flat(e, o, b.num) := src[Flat(e, b.start + o, nth)]]], src, nth, nodes, nd', e', o')
  {
    if nd == nd' { FlatInjective(e, o, e', o', PartSize(nth, nodes, nd)); }
    hide Flat;
  }

  /** The copy job: after all callbacks, in whatever order they ran, every slot holds its block. */
  method CopyBlocks<W>(ran: seq<(nat, int)>, blocks: seq<NumaBlock>, src: seq<W>, experts: nat, nth: nat, nodes: nat,
                       room: seq<seq<W>>) returns (local: seq<seq<W>>)
    requires TableFor(blocks, nth, nodes) && |src| == Area(experts, nth) && RanOnce(ran, nodes, experts, nth)
    requires |room| == nodes && forall nd :: 0 <= nd < nodes ==> |room[nd]| == Area(experts, blocks[nd].num)
    ensures Loaded(local, src, experts, nth, nodes)
  {
    hide Area, RanOnce, OnNode, Flat, SlotLoaded, CellOf, Decode;
    JobEnumerates(ran, nodes, experts, nth);
    local := room;
    for i := 0 to |ran|
      invariant |local| == nodes && forall nd :: 0 <= nd < nodes ==> |local[nd]| == Area(experts, blocks[nd].num)
      invariant forall j :: 0 <= j < i ==> TaskLoaded(local, src, experts, nth, nodes, ran[j])
    {
      var nid, taskId := ran[i].0, ran[i].1;
      TaskIsCell(nodes, experts, nth, nid, taskId);
      // The source returns early when num_blocks is 0; a node without blocks gets no task.
      var b := blocks[nid];
      var (expertId, offset) := Decode(b, experts, taskId);
      SlotBound(nth, nodes, experts, nid, expertId, offset);
      ghost var before := local;
      local := local[nid := local[nid][Flat(expertId, offset, b.num) := src[Flat(expertId, b.start + offset, nth)]]];
      forall j | 0 <= j < i + 1 ensures TaskLoaded(local, src, experts, nth, nodes, ran[j]) {
        TaskIsCell(nodes, experts, nth, ran[j].0, ran[j].1);
        var (e', o') := Decode(BlockOf(nth, nodes, ran[j].0), experts, ran[j].1);
        CopyKeeps(before, src, nth, nodes, nid, expertId, offset, ran[j].0, e', o');
      }
    }
    AllSlotsLoaded(ran, local, src, experts, nth, nodes);
  }

  lemma AllSlotsLoaded<W>(ran: seq<(nat, int)>, local: seq<seq<W>>, src: seq<W>, experts: nat, nth: nat, nodes: nat)
    requires RanOnce(ran, nodes, experts, nth) && nodes > 0 && |local| == nodes && Enumerates(ran, nodes, experts, nth)
    requires forall j :: 0 <= j < |ran| ==> TaskLoaded(local, src, experts, nth, nodes, ran[j])
    ensures Loaded(local, src, experts, nth, nodes)
  {
    hide Flat, RanOnce, Enumerates, OnNode;
    forall nd, e, o | 0 <= nd < nodes && 0 <= e < experts && 0 <= o < PartSize(nth, nodes, nd)
      ensures SlotLoaded(local, src, nth, nodes, nd, e, o)
    {
      CellIsTask(nodes, experts, nth, nd, e, o);
      var b := BlockOf(nth, nodes, nd);
      var j := TaskRan(ran, nodes, experts, nth, nd, b.start * experts + Flat(e, o, b.num));
      assert TaskLoaded(local, src, experts, nth, nodes, ran[j]);
    }
  }

  /** The part of the constructor that deals one tensor out to the nodes: table, allocation job, copy job.
      It throws exactly when some node has no thread. */
  method LoadWeights<W>(pool: BackendNuma, src: seq<W>, experts: nat, nth: nat, garbage: W)
    returns (ok: bool, blocks: seq<NumaBlock>, local: seq<seq<W>>)
    requires pool.Valid() && pool.caller.Idle? && pool.counts != [] && |src| == Area(experts, nth)
    modifies pool
    ensures ok <==> 0 !in pool.counts
    ensures ok ==> pool.Valid() && pool.caller.Idle?
    ensures ok ==> TableFor(blocks, nth, |pool.counts|) && Loaded(local, src, experts, nth, |pool.counts|)
  {
    var ran;
    local := [];
    blocks := BlockTable(nth, |pool.counts|);
    ok, ran := pool.DoKWorkStealingJob(1, |pool.counts|);
    if ok {
      local := AllocateNodes(ran, blocks, experts, |pool.counts|, garbage);
      ok, ran := pool.DoKWorkStealingJob(experts, nth);
      local := CopyBlocks(ran, blocks, src, experts, nth, |pool.counts|, local);
    }
  }

  /** Loaded, with the block table written out: node nd owns `num` blocks from `start` on, and slot
      e * num + o of its memory holds source block e * nth + start + o. */
  lemma LoadedMeans<W>(local: seq<seq<W>>, src: seq<W>, experts: nat, nth: nat, nodes: nat, nd: nat, e: nat, o: nat)
    requires Loaded(local, src, experts, nth, nodes) && nd < nodes && e < experts
    ensures var num := nth / nodes + if nd < nth % nodes then 1 else 0;
      var start := nd * (nth / nodes) + if nd < nth % nodes then nd else nth % nodes;
      o < num ==> e * num + o < |local[nd]| && e * nth + (start + o) < |src| && local[nd][e * num + o] == src[e * nth + (start + o)]
  {
    if o < PartSize(nth, nodes, nd) { assert SlotLoaded(local, src, nth, nodes, nd, e, o); }
  }
}
