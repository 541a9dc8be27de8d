/** The forward passes of MOE, every parallel step a job of the work-stealing scheduler whose callbacks
    update the shared buffers in whatever order they start. */
module MoeForward {
  import opened BackendNumas
  import opened MoeBatches
  import opened MoeJobs
  import opened MoeLayout
  import opened MoeReorder
  import opened Moes
  import opened Tables

  class MOE {
    const m: Model
    const routed: nat       // routed_expert_num
    const groupMinLen: int
    const groupMaxLen: nat
    const pool: BackendNuma
    const loaded: bool      // the constructor did not throw
    const gateUpBlocks: seq<NumaBlock>
    const downBlocks: seq<NumaBlock>
    const gateUpNuma: seq<seq<(Weights, Weights)>>
    const downNuma: seq<seq<Weights>>
    var sUp: seq<Block>
    var sDown: seq<Block>
    var input: seq<Row>
    var mInput: seq<Row>
    var upOutput: seq<Block>
    var downOutput: seq<Block>

    ghost predicate Dealt() {
      && loaded && |pool.counts| > 0 && 0 !in pool.counts
      && TableFor(gateUpBlocks, m.nth, |pool.counts|) && Loaded(gateUpNuma, m.gateUp, m.experts, m.nth, |pool.counts|)
      && TableFor(downBlocks, m.nthDown, |pool.counts|) && Loaded(downNuma, m.down, m.experts, m.nthDown, |pool.counts|)
    }

    predicate Buffers()
      reads this
    {
      && |sUp| == Area(routed, m.nth) && |sDown| == Area(routed, m.nthDown)
      && |input| == groupMaxLen && |mInput| == Area(groupMaxLen, routed)
      && |upOutput| == Area(Area(groupMaxLen, routed), m.nth) && |downOutput| == Area(Area(groupMaxLen, routed), m.nthDown)
    }

    ghost predicate PoolIdle()
      reads pool
    {
      pool.Valid() && pool.caller.Idle?
    }

    ghost predicate Ready()
      reads this, pool
    {
      Sized(m) && Dealt() && Buffers() && PoolIdle()
    }

    constructor (m: Model, routed: nat, groupMinLen: int, groupMaxLen: nat, pool: BackendNuma, garbage: (Weights, Weights))
      requires pool.Valid() && pool.caller.Idle? && pool.counts != [] && Sized(m)
      modifies pool
      ensures loaded <==> 0 !in pool.counts
      ensures loaded ==> Ready()
      ensures this.m == m && this.routed == routed && this.groupMinLen == groupMinLen && this.groupMaxLen == groupMaxLen
      ensures this.pool == pool
    {
      this.m, this.routed, this.groupMinLen, this.groupMaxLen, this.pool := m, routed, groupMinLen, groupMaxLen, pool;
      var ok, gateUpTable, gateUp := LoadWeights(pool, m.gateUp, m.experts, m.nth, garbage);
      var downTable, down := [], [];
      if ok {
        ok, downTable, down := LoadWeights(pool, m.down, m.experts, m.nthDown, garbage.0);
      }
      loaded, gateUpBlocks, gateUpNuma, downBlocks, downNuma := ok, gateUpTable, gateUp, downTable, down;
      var block: Block := *;
      var row: Row := *;
      sUp, sDown := seq(Area(routed, m.nth), _ => block), seq(Area(routed, m.nthDown), _ => block);
      input, mInput := seq(groupMaxLen, _ => row), seq(Area(groupMaxLen, routed), _ => row);
      upOutput := seq(Area(Area(groupMaxLen, routed), m.nth), _ => block);
      downOutput := seq(Area(Area(groupMaxLen, routed), m.nthDown), _ => block);
    }

    /** Gate, up and activation for one block of one row, from the node's own copy of the weights. */
    method GateUpTask(nid: nat, expertId: nat, offset: nat, row: Row) returns (v: Block)
      requires Sized(m) && Dealt() && nid < |pool.counts| && expertId < m.experts && offset < gateUpBlocks[nid].num
      ensures gateUpBlocks[nid].start + offset < m.nth
      ensures v == HiddenBlock(m, row, expertId, gateUpBlocks[nid].start + offset)
    {
      assert SlotLoaded(gateUpNuma, m.gateUp, m.nth, |pool.counts|, nid, expertId, offset);
      NodeInterval(|pool.counts|, 1, m.nth, nid, 0);
      var proj := gateUpNuma[nid][Flat(expertId, offset, gateUpBlocks[nid].num)];
      v := m.kernel.act(m.kernel.up(proj.1, row), m.kernel.gate(proj.0, row));
    }

    /** The down kernel for one block of one row. */
    method DownTask(nid: nat, expertId: nat, offset: nat, hidden: seq<Block>) returns (v: Block)
      requires Sized(m) && Dealt() && nid < |pool.counts| && expertId < m.experts && offset < downBlocks[nid].num
      ensures var b := downBlocks[nid].start + offset;
        && b < m.nthDown && Flat(expertId, b, m.nthDown) < |m.down|
        && v == m.kernel.down(m.down[Flat(expertId, b, m.nthDown)], hidden)
    {
      assert SlotLoaded(downNuma, m.down, m.nthDown, |pool.counts|, nid, expertId, offset);
      NodeInterval(|pool.counts|, 1, m.nthDown, nid, 0);
      v := m.kernel.down(downNuma[nid][Flat(expertId, offset, downBlocks[nid].num)], hidden);
    }

    /** Runs a job; its callbacks have started in the order of `ran`. */
    method Job(k: nat, nth: nat) returns (ran: seq<(nat, int)>)
      requires Dealt() && PoolIdle()
      modifies pool
      ensures PoolIdle() && Enumerates(ran, |pool.counts|, k, nth)
    {
      var ok;
      ok, ran := pool.DoKWorkStealingJob(k, nth);
      JobEnumerates(ran, |pool.counts|, k, nth);
    }

    /** The opening lines of every callback: which round and block a task id stands for on node nid. */
    method DecodeTask(blocks: seq<NumaBlock>, k: nat, nth: nat, task: (nat, int)) returns (nid: nat, row: nat, offset: nat)
      requires TableFor(blocks, nth, |pool.counts|) && OnNode(|pool.counts|, k, nth, task.0, task.1)
      ensures nid == task.0 < |pool.counts| == |blocks| && row < k && offset < blocks[nid].num && blocks[nid].start + offset < nth
      ensures CellOf(|pool.counts|, k, nth, task) == Cell(row, blocks[nid].start + offset)
    {
      nid := task.0;
      var taskId := task.1;
      TaskIsCell(|pool.counts|, k, nth, nid, taskId);
      // The source returns early when num_blocks is 0; a node without blocks gets no task.
      row, offset := Decode(blocks[nid], k, taskId).0, Decode(blocks[nid], k, taskId).1;
    }

    /** First job of forward_one: the hidden row of each of the token's experts, block by block. */
    method GateUpOne(es: seq<nat>, row: Row)
      requires Ready() && Routed(m, es) && |es| <= routed
      modifies this`sUp, pool
      ensures Ready()
      ensures forall r, b :: 0 <= r < |es| && 0 <= b < m.nth ==> Holds(sUp, r, b, m.nth, HiddenBlock(m, row, es[r], b))
    {
      hide RanOnce, OnNode, Loaded, PoolIdle, HiddenBlock, CellOf, Decode, TableFor, Filled, Holds, Area, Flat;
      var nodes := |pool.counts|;
      var ran := Job(|es|, m.nth);
      ghost var f := (c: Cell) requires Sized(m) && Routed(m, es) && c.row < |es| && c.block < m.nth => HiddenBlock(m, row, es[c.row], c.block);
      FilledNone(sUp, ran, nodes, |es|, m.nth, f);
      for i := 0 to |ran|
        invariant Buffers() && Filled(sUp, ran, i, nodes, |es|, m.nth, f)
        modifies `sUp
      {
        FilledOn(sUp, ran, i, nodes, |es|, m.nth, f);
        var nid, expertIdx, offset := DecodeTask(gateUpBlocks, |es|, m.nth, ran[i]);
        var ith := gateUpBlocks[nid].start + offset;
        var v := GateUpTask(nid, es[expertIdx], offset, row);
        FlatBound(expertIdx, ith, m.nth, routed);
        FilledStep(sUp, ran, i, nodes, |es|, m.nth, f, Cell(expertIdx, ith));
        sUp := sUp[Flat(expertIdx, ith, m.nth) := v];
      }
      FilledAll(sUp, ran, nodes, |es|, m.nth, f);
      forall r, b | 0 <= r < |es| && 0 <= b < m.nth ensures Holds(sUp, r, b, m.nth, HiddenBlock(m, row, es[r], b)) {
        assert f(Cell(r, b)) == HiddenBlock(m, row, es[r], b);
      }
    }

    method DownOneTask(nid: nat, es: seq<nat>, expertIdx: nat, offset: nat, ghost row: Row) returns (v: Block)
      requires Ready() && Routed(m, es) && |es| <= routed && nid < |pool.counts| && expertIdx < |es| && offset < downBlocks[nid].num
      requires forall b :: 0 <= b < m.nth ==> Holds(sUp, expertIdx, b, m.nth, HiddenBlock(m, row, es[expertIdx], b))
      ensures downBlocks[nid].start + offset < m.nthDown
      ensures v == ExpertBlock(m, row, es[expertIdx], downBlocks[nid].start + offset)
    {
      MulLe(expertIdx, routed, m.nth);
      RowSlice(m, sUp, expertIdx, row, es[expertIdx]);
      var downInput := sUp[Flat(expertIdx, 0, m.nth)..Flat(expertIdx, 0, m.nth) + m.nth];
      v := DownTask(nid, es[expertIdx], offset, downInput);
    }

    /** Third job of forward_one: every block of every expert's output row. */
    method DownOne(es: seq<nat>, row: Row)
      requires Ready() && Routed(m, es) && |es| <= routed
      requires forall r, b :: 0 <= r < |es| && 0 <= b < m.nth ==> Holds(sUp, r, b, m.nth, HiddenBlock(m, row, es[r], b))
      modifies this`sDown, pool
      ensures Ready()
      ensures forall r, b :: 0 <= r < |es| && 0 <= b < m.nthDown ==> Holds(sDown, r, b, m.nthDown, ExpertBlock(m, row, es[r], b))
    {
      hide RanOnce, OnNode, Loaded, PoolIdle, HiddenBlock, CellOf, Decode, TableFor, HiddenRow, ExpertBlock, Filled, Holds, Area, Flat;
      var nodes := |pool.counts|;
      var ran := Job(|es|, m.nthDown);
      ghost var f := (c: Cell) requires Sized(m) && Routed(m, es) && c.row < |es| && c.block < m.nthDown => ExpertBlock(m, row, es[c.row], c.block);
      FilledNone(sDown, ran, nodes, |es|, m.nthDown, f);
      for i := 0 to |ran|
        invariant Buffers() && Filled(sDown, ran, i, nodes, |es|, m.nthDown, f)
        modifies `sDown
      {
        FilledOn(sDown, ran, i, nodes, |es|, m.nthDown, f);
        var nid, expertIdx, offset := DecodeTask(downBlocks, |es|, m.nthDown, ran[i]);
        var ith := downBlocks[nid].start + offset;
        var v := DownOneTask(nid, es, expertIdx, offset, row);
        FlatBound(expertIdx, ith, m.nthDown, routed);
        FilledStep(sDown, ran, i, nodes, |es|, m.nthDown, f, Cell(expertIdx, ith));
        sDown := sDown[Flat(expertIdx, ith, m.nthDown) := v];
      }
      FilledAll(sDown, ran, nodes, |es|, m.nthDown, f);
      forall r, b | 0 <= r < |es| && 0 <= b < m.nthDown ensures Holds(sDown, r, b, m.nthDown, ExpertBlock(m, row, es[r], b)) {
        assert f(Cell(r, b)) == ExpertBlock(m, row, es[r], b);
      }
    }

    /** The last job of both passes: each token's k expert rows are weighted and added up in place, in the
        token's first row, and the result stored in the output. */
    method SumUp(buf0: seq<Block>, qlen: nat, k: nat, rows: seq<nat>, ws: seq<Factor>, output: array<Out>, at: nat)
      returns (buf: seq<Block>)
      requires Ready() && 0 < k && |rows| == |ws| == Area(qlen, k) && at + Area(qlen, m.nthDown) <= output.Length
      requires RowsFit(buf0, rows, m.nthDown) && Distinct(rows)
      modifies pool, output
      ensures Ready() && |buf| == |buf0|
      ensures forall t, b :: 0 <= t < qlen && 0 <= b < m.nthDown ==>
        Wrote(output[..], at, m.nthDown, Cell(t, b), Summed(m.kernel, buf0, rows, ws, qlen, k, m.nthDown, Cell(t, b)))
      ensures forall q :: 0 <= q < output.Length && !(at <= q < at + Area(qlen, m.nthDown)) ==> output[q] == old(output[q])
    {
      hide RanOnce, OnNode, Loaded, PoolIdle, CellOf, Decode, TableFor, RowsFit, Distinct, SumState, Enumerates, Area, Flat;
      var nodes, w := |pool.counts|, m.nthDown;
      var ran := Job(qlen, w);
      buf := buf0;
      SumStart(m.kernel, buf0, output[..], at, ran, nodes, rows, ws, qlen, k, w);
      for i := 0 to |ran|
        invariant SumState(m.kernel, buf, buf0, output[..], at, ran, i, nodes, rows, ws, qlen, k, w)
        invariant forall q :: 0 <= q < output.Length && !(at <= q < at + Area(qlen, w)) ==> output[q] == old(output[q])
        modifies output
      {
        ghost var c := SumNext(m.kernel, buf, buf0, output[..], at, ran, i, nodes, rows, ws, qlen, k, w);
        var nid, tokenId, offset := DecodeTask(downBlocks, qlen, w, ran[i]);
        var ith := downBlocks[nid].start + offset;
        var mine := Ranks(rows, k, tokenId, qlen);
        SumStep(m.kernel, buf, buf0, output[..], at, ran, i, nodes, rows, ws, qlen, k, w, c);
        ghost var before := output[..];
        buf := MixInPlace(m.kernel, buf, mine, Ranks(ws, k, tokenId, qlen), ith, w);
        FlatBound(tokenId, ith, w, qlen);
        output[at + Flat(tokenId, ith, w)] := m.kernel.store(buf[Flat(mine[0], ith, w)]);
        assert output[..] == before[at + Flat(tokenId, ith, w) := m.kernel.store(buf[Flat(mine[0], ith, w)])];
      }
      SumDone(m.kernel, buf, buf0, output[..], at, ran, nodes, rows, ws, qlen, k, w);
    }

    /** One token: block b of its output is TokenBlock, and no other output cell changes. */
    method ForwardOne(es: seq<nat>, ws: seq<Factor>, x: Input, output: array<Out>, at: nat)
      requires Ready() && Routed(m, es) && 0 < |es| == |ws| <= routed && at + m.nthDown <= output.Length
      modifies this`sUp, this`sDown, pool, output
      ensures Ready() && TokenWritten(output[..], at, m, x, es, ws)
      ensures forall q :: 0 <= q < output.Length && !(at <= q < at + m.nthDown) ==> output[q] == old(output[q])
    {
      var row := m.kernel.load(x);
      GateUpOne(es, row);
      DownOne(es, row);
      var rows := seq(|es|, i => i);
      ghost var summands := sDown;
      OneTokenDone(m, sDown, rows, es, x);
      hide Holds, Distinct, ExpertsDone, RowsFit, Wrote, Summed, TokenWritten, PoolIdle;
      sDown := SumUp(sDown, 1, |es|, rows, ws, output, at);
      TokensWritten(m, summands, rows, es, ws, [x], |es|, output[..], at, 0);
      assert Ranks(es, |es|, 0, 1) == es && Ranks(ws, |es|, 0, 1) == ws;
    }

    /** First job of forward_many_m: convert every token. */
    method LoadAll(xs: seq<Input>)
      requires Ready() && |xs| <= groupMaxLen
      modifies this`input, pool
      ensures Ready() && forall t :: 0 <= t < |xs| ==> input[t] == m.kernel.load(xs[t])
    {
      hide Enumerates, Loaded, PoolIdle, Area;
      var ran := Job(1, |xs|);
      OneRoundIds(ran, |pool.counts|, |xs|);
      for i := 0 to |ran|
        invariant Buffers() && forall j :: 0 <= j < i ==> input[ran[j].1] == m.kernel.load(xs[ran[j].1])
        modifies `input
      {
        var tokenId := ran[i].1;
        input := input[tokenId := m.kernel.load(xs[tokenId])];
      }
      forall t | 0 <= t < |xs| ensures input[t] == m.kernel.load(xs[t]) { assert Started(ran, t); }
    }

    /** Copies assignment taskId's token to the assignment's row of the gather buffer. */
    method GatherTask(ids: seq<nat>, k: nat, qlen: nat, pos: seq<nat>, offset: seq<nat>, taskId: nat)
      requires Buffers() && Routed(m, ids) && 0 < k && |ids| == Area(qlen, k) == |pos| && qlen <= |input| && |ids| <= |mInput|
      requires |offset| == m.experts && forall p :: 0 <= p < |ids| ==> offset[ids[p]] + pos[p] == RowOf(ids, p)
      requires taskId < |ids|
      modifies this`mInput
      ensures Buffers() && Gathered(ids, k, mInput, input, taskId)
      ensures forall p: nat :: old(Gathered(ids, k, mInput, input, p)) ==> Gathered(ids, k, mInput, input, p)
    {
      hide Area, Flat, RowOf, Gathered;
      Unflat(taskId, k, qlen);
      var tokenId, expertIdx := taskId / k, taskId % k;
      var expertId := ids[Flat(tokenId, expertIdx, k)];
      RowInRange(ids, m.experts, taskId);
      ghost var before := mInput;
      mInput := mInput[offset[expertId] + pos[taskId] := input[tokenId]];
      forall p: nat | Gathered(ids, k, before, input, p) || p == taskId ensures Gathered(ids, k, mInput, input, p) {
        GatherKeeps(ids, k, before, input, taskId, p);
      }
    }

    /** Second job: every row of the gather buffer gets the token it was made for. */
    method Gather(ids: seq<nat>, k: nat, qlen: nat, pos: seq<nat>, offset: seq<nat>)
      requires Ready() && Routed(m, ids) && 0 < k && |ids| == Area(qlen, k) == |pos| && qlen <= |input| && |ids| <= |mInput|
      requires |offset| == m.experts && forall p :: 0 <= p < |ids| ==> offset[ids[p]] + pos[p] == RowOf(ids, p)
      modifies this`mInput, pool
      ensures Ready()
      ensures forall p :: 0 <= p < |ids| ==> Gathered(ids, k, mInput, input, p)
    {
      hide Enumerates, Loaded, PoolIdle, RowOf, Gathered, Area, Dealt;
      var ran := Job(1, |ids|);
      OneRoundIds(ran, |pool.counts|, |ids|);
      for i := 0 to |ran|
        invariant Buffers() && forall j :: 0 <= j < i ==> Gathered(ids, k, mInput, input, ran[j].1)
        modifies `mInput
      {
        GatherTask(ids, k, qlen, pos, offset, ran[i].1);
      }
      forall p | 0 <= p < |ids| ensures Gathered(ids, k, mInput, input, p) { assert Started(ran, p); }
    }

    /** Third job: one block of the hidden rows of all assignments to one expert. */
    method GateUpMany(ids: seq<nat>, offset: seq<nat>, selected: seq<nat>)
      requires Ready() && Routed(m, ids) && |ids| <= Area(groupMaxLen, routed) && |offset| == |selected| == m.experts
      requires forall e :: 0 <= e < m.experts ==> offset[e] == Offset(ids, e, |ids|) && selected[e] == Count(ids, e, |ids|)
      modifies this`upOutput, pool
      ensures Ready()
      ensures forall p, b :: 0 <= p < |ids| && 0 <= b < m.nth ==> HiddenDone(m, upOutput, mInput, ids, p, b)
    {
      hide OnNode, Loaded, PoolIdle, HiddenBlock, CellOf, Offset, Count, Held, TableFor, Enumerates, RowsHold, Decode, Area, Flat;
      var nodes := |pool.counts|;
      var ran := Job(m.experts, m.nth);
      AllHeld(ids, m.experts);
      ghost var rowsIn := mInput;
      ghost var g := (r: nat, b: nat) requires Sized(m) && Routed(m, ids) && Held(ids, r) && r < |rowsIn| && b < m.nth => HiddenAt(m, rowsIn, ids, r, b);
      for i := 0 to |ran|
        invariant Buffers() && RowsFilled(upOutput, ran, i, nodes, m.experts, ids, m.nth, g)
        modifies `upOutput
      {
        RowsFilledOn(upOutput, ran, i, nodes, m.experts, ids, m.nth, g);
        var nid, expertId, blockOffset := DecodeTask(gateUpBlocks, m.experts, m.nth, ran[i]);
        var ith := gateUpBlocks[nid].start + blockOffset;
        var first, n := offset[expertId], selected[expertId];
        RowsHoldNone(upOutput, ids, expertId, ith, m.nth, g);
        for r := first to first + n
          invariant Buffers() && RowsFilled(upOutput, ran, i, nodes, m.experts, ids, m.nth, g)
          invariant RowsHold(upOutput, ids, expertId, ith, m.nth, r, g)
          modifies `upOutput
        {
          ExpertHolds(ids, m.experts, expertId, r);
          var v := GateUpTask(nid, expertId, blockOffset, mInput[r]);
          FlatBound(r, ith, m.nth, Area(groupMaxLen, routed));
          RowsFilledWrite(upOutput, ran, i, nodes, m.experts, ids, m.nth, g, r, Cell(expertId, ith));
          upOutput := upOutput[Flat(r, ith, m.nth) := v];
        }
        RowsFilledNext(upOutput, ran, i, nodes, m.experts, ids, m.nth, g, first + n, Cell(expertId, ith));
      }
      forall p, b | 0 <= p < |ids| && 0 <= b < m.nth ensures HiddenDone(m, upOutput, mInput, ids, p, b) {
        RowsFilledAt(upOutput, ran, nodes, m.experts, ids, m.nth, g, p, b);
        HolderIs(ids, p);
      }
    }

    method DownManyTask(nid: nat, expertId: nat, offset: nat, r: nat) returns (v: Block)
      requires Ready() && nid < |pool.counts| && expertId < m.experts && offset < downBlocks[nid].num
      requires r < Area(groupMaxLen, routed)
      ensures var b := downBlocks[nid].start + offset;
        && b < m.nthDown && Flat(expertId, b, m.nthDown) < |m.down| && Flat(r, 0, m.nth) + m.nth <= |upOutput|
        && v == m.kernel.down(m.down[Flat(expertId, b, m.nthDown)], upOutput[Flat(r, 0, m.nth)..Flat(r, 0, m.nth) + m.nth])
    {
      hide PoolIdle, Loaded;
      MulLe(r + 1, Area(groupMaxLen, routed), m.nth);
      var downInput := upOutput[Flat(r, 0, m.nth)..Flat(r, 0, m.nth) + m.nth];
      v := DownTask(nid, expertId, offset, downInput);
    }

    /** The down job: one block of the output rows of all assignments to one expert. */
    method DownMany(ids: seq<nat>, offset: seq<nat>, selected: seq<nat>)
      requires Ready() && Routed(m, ids) && |ids| <= Area(groupMaxLen, routed) && |offset| == |selected| == m.experts
      requires forall e :: 0 <= e < m.experts ==> offset[e] == Offset(ids, e, |ids|) && selected[e] == Count(ids, e, |ids|)
      modifies this`downOutput, pool
      ensures Ready()
      ensures forall p, b :: 0 <= p < |ids| && 0 <= b < m.nthDown ==> DownDone(m, downOutput, upOutput, ids, p, b)
    {
      hide OnNode, Loaded, PoolIdle, CellOf, Offset, Count, Held, TableFor, Enumerates, RowsHold, RowsFilled, Decode, Area, Flat, RowOf;
      var nodes := |pool.counts|;
      var ran := Job(m.experts, m.nthDown);
      AllHeld(ids, m.experts);
      ghost var up := upOutput;
      ghost var g := (r: nat, b: nat) requires Sized(m) && Routed(m, ids) && Held(ids, r) && Flat(r, 0, m.nth) + m.nth <= |up| && b < m.nthDown
        => DownAt(m, up, ids, r, b);
      RowsInside(|ids|, Area(groupMaxLen, routed), m.nth);
      RowsFilledNone(downOutput, ran, nodes, m.experts, ids, m.nthDown, g);
      for i := 0 to |ran|
        invariant Buffers() && RowsFilled(downOutput, ran, i, nodes, m.experts, ids, m.nthDown, g)
        modifies `downOutput
      {
        RowsFilledOn(downOutput, ran, i, nodes, m.experts, ids, m.nthDown, g);
        var nid, expertId, blockOffset := DecodeTask(downBlocks, m.experts, m.nthDown, ran[i]);
        var ith := downBlocks[nid].start + blockOffset;
        var first, n := offset[expertId], selected[expertId];
        RowsHoldNone(downOutput, ids, expertId, ith, m.nthDown, g);
        for r := first to first + n
          invariant Buffers() && RowsFilled(downOutput, ran, i, nodes, m.experts, ids, m.nthDown, g)
          invariant RowsHold(downOutput, ids, expertId, ith, m.nthDown, r, g)
          modifies `downOutput
        {
          ExpertHolds(ids, m.experts, expertId, r);
          var v := DownManyTask(nid, expertId, blockOffset, r);
          FlatBound(r, ith, m.nthDown, Area(groupMaxLen, routed));
          RowsFilledWrite(downOutput, ran, i, nodes, m.experts, ids, m.nthDown, g, r, Cell(expertId, ith));
          downOutput := downOutput[Flat(r, ith, m.nthDown) := v];
        }
        RowsFilledNext(downOutput, ran, i, nodes, m.experts, ids, m.nthDown, g, first + n, Cell(expertId, ith));
      }
      forall p, b | 0 <= p < |ids| && 0 <= b < m.nthDown ensures DownDone(m, downOutput, upOutput, ids, p, b) {
        RowsFilledAt(downOutput, ran, nodes, m.experts, ids, m.nthDown, g, p, b);
        HolderIs(ids, p);
      }
    }

    /** A group of tokens; ids[t * k + i] and ws[t * k + i] are token t's i-th expert and weight.  Every token
        gets the output ForwardOne gives it, and no other output cell changes. */
    method ForwardMany(k: nat, ids: seq<nat>, ws: seq<Factor>, xs: seq<Input>, output: array<Out>, at: nat)
      requires Ready() && 0 < k <= routed && |xs| <= groupMaxLen && |ids| == |ws| == Area(|xs|, k) && Routed(m, ids)
      requires at + Area(|xs|, m.nthDown) <= output.Length
      modifies this`input, this`mInput, this`upOutput, this`downOutput, pool, output
      ensures Ready()
      ensures forall t :: 0 <= t < |xs| ==>
        TokenWritten(output[..], at + Area(t, m.nthDown), m, xs[t], Ranks(ids, k, t, |xs|), Ranks(ws, k, t, |xs|))
      ensures forall q :: 0 <= q < output.Length && !(at <= q < at + Area(|xs|, m.nthDown)) ==> output[q] == old(output[q])
    {
      hide PoolIdle, Dealt, RowOf, Offset, Count, Area, Wrote, Summed, TokenWritten, ExpertsDone, RowsFit, Distinct, HiddenDone, DownDone, Gathered;
      var pos, offset, selected := Reorder(ids, m.experts, |xs|, k);
      GroupFits(|xs|, groupMaxLen, k, routed);
      LoadAll(xs);
      Gather(ids, k, |xs|, pos, offset);
      GateUpMany(ids, offset, selected);
      DownMany(ids, offset, selected);
      var rows := seq(|ids|, p requires 0 <= p < |ids| => offset[ids[p]] + pos[p]);
      ManyDone(m, downOutput, upOutput, mInput, input, rows, ids, xs, k);
      ghost var summands := downOutput;
      downOutput := SumUp(downOutput, |xs|, k, rows, ws, output, at);
      forall t | 0 <= t < |xs|
        ensures TokenWritten(output[..], at + Area(t, m.nthDown), m, xs[t], Ranks(ids, k, t, |xs|), Ranks(ws, k, t, |xs|))
      {
        TokensWritten(m, summands, rows, ids, ws, xs, k, output[..], at, t);
      }
    }

    /** forward: whatever the group lengths, each of the first `batch` tokens gets exactly the output that
        forward_one gives it, and output cells of later tokens keep their values.  The third requirement says
        exactly that the source's loop ends, see MoeBatches.ForwardEndsIff; `rounds` counts its passes. */
    method Forward(batch: int, k: nat, ids: seq<nat>, ws: seq<Factor>, xs: seq<Input>, output: array<Out>) returns (ghost rounds: nat)
      requires Ready() && 0 < k <= routed && batch <= |xs| && |ids| == |ws| == Area(|xs|, k) && Routed(m, ids)
      requires Area(|xs|, m.nthDown) <= output.Length
      requires groupMaxLen > 0 || batch < groupMinLen || batch <= 0
      modifies this`sUp, this`sDown, this`input, this`mInput, this`upOutput, this`downOutput, pool, output
      ensures Ready()
      ensures AllWritten(output[..], m, xs, k, ids, ws, batch)
      ensures forall q: nat :: q < output.Length && (batch <= 0 || Area(batch, m.nthDown) <= q) ==> output[q] == old(output[q])
      ensures After(groupMinLen, groupMaxLen, rounds, batch) <= 0
      ensures forall r: nat :: r < rounds ==> After(groupMinLen, groupMaxLen, r, batch) > 0
    {
      hide PoolIdle, Dealt, TokenWritten, Area, Ranks, AllWritten, Group, After;
      NextRound(groupMinLen, groupMaxLen, 0, batch);
      AreaAdd(0, 0, m.nthDown);
      AllWrittenNone(output[..], m, xs, k, ids, ws, 0);
      var remaining, currentPos := batch, 0;
      rounds := 0;
      while remaining > 0
        invariant remaining == After(groupMinLen, groupMaxLen, rounds, batch)
        invariant forall r: nat :: r < rounds ==> After(groupMinLen, groupMaxLen, r, batch) > 0
        invariant Ready() && 0 <= currentPos && remaining + currentPos == batch
        invariant if batch > 0 then remaining >= 0 else currentPos == 0
        invariant groupMaxLen > 0 || remaining < groupMinLen || remaining <= 0
        invariant AllWritten(output[..], m, xs, k, ids, ws, currentPos)
        invariant forall q: nat :: q < output.Length && Area(currentPos, m.nthDown) <= q ==> output[q] == old(output[q])
        decreases remaining
      {
        NextRound(groupMinLen, groupMaxLen, rounds, batch);
        if remaining < groupMinLen {
          for i := 0 to remaining
            invariant Ready() && AllWritten(output[..], m, xs, k, ids, ws, currentPos + i)
            invariant forall q: nat :: q < output.Length && Area(currentPos + i, m.nthDown) <= q ==> output[q] == old(output[q])
          {
            OneAfter(m, xs, k, ids, currentPos + i, output.Length);
            ghost var before := output[..];
            ForwardOne(Ranks(ids, k, currentPos + i, |xs|), Ranks(ws, k, currentPos + i, |xs|), xs[currentPos + i], output,
                       Area(currentPos + i, m.nthDown));
            WrittenStep(before, output[..], m, xs, k, ids, ws, currentPos + i, 1);
          }
          rounds := rounds + 1;
          return;
        }
        var forwardLen := if groupMaxLen < remaining then groupMaxLen else remaining;
        ManyAfter(m, xs, k, ids, ws, currentPos, forwardLen, output.Length);
        ghost var before := output[..];
        ForwardMany(k, Group(ids, k, currentPos, forwardLen, |xs|), Group(ws, k, currentPos, forwardLen, |xs|),
                    xs[currentPos..currentPos + forwardLen], output, Area(currentPos, m.nthDown));
        WrittenGroup(before, output[..], m, xs, k, ids, ws, currentPos, forwardLen);
        remaining := remaining - forwardLen;
        currentPos := currentPos + forwardLen;
        rounds := rounds + 1;
      }
      AllWrittenNone(output[..], m, xs, k, ids, ws, batch);
    }
  }

  lemma OneTokenDone(m: Model, buf: seq<Block>, rows: seq<nat>, es: seq<nat>, x: Input)
    requires Sized(m) && Routed(m, es) && 0 < |es| == |rows| && forall i :: 0 <= i < |es| ==> rows[i] == i
    requires forall r, b :: 0 <= r < |es| && 0 <= b < m.nthDown ==> Holds(buf, r, b, m.nthDown, ExpertBlock(m, m.kernel.load(x), es[r], b))
    ensures Distinct(rows) && Area(|[x]|, |es|) == |es| && ExpertsDone(m, buf, rows, es, [x], |es|) && RowsFit(buf, rows, m.nthDown)
  {
    hide Holds, ExpertBlock;
    forall p, b | 0 <= p < |es| && 0 <= b < m.nthDown
      ensures Holds(buf, rows[p], b, m.nthDown, ExpertBlock(m, m.kernel.load(TokenOf([x], |es|, p)), es[p], b)) { }
    ExpertsFit(m, buf, rows, es, [x], |es|);
  }
}
