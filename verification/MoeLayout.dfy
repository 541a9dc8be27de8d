/** Where MOE puts its weight blocks, and the decoding of task ids into (round, block) that all its jobs
    rely on.  It is right because the scheduler splits a job the way the constructor splits the blocks. */
module MoeLayout {
  import opened StaticPartition
  import opened BackendNumas
  import opened Tables

  // ----- The block table and the task decoding.

  datatype NumaBlock = NumaBlock(start: nat, num: nat)

  function BlockOf(nth: nat, nodes: nat, nid: nat): NumaBlock
    requires nodes > 0
  {
    NumaBlock(Split(nth, nodes, nid), PartSize(nth, nodes, nid))
  }

  lemma PartSizeIs(nth: nat, nodes: nat, nid: nat)
    requires nodes > 0
    ensures PartSize(nth, nodes, nid) == nth / nodes + if nid < nth % nodes then 1 else 0
  {
  }

  /** The loop of the constructor that fills gate_up_blocks_ and down_blocks_: the blocks of the nodes follow
      one another and together are [0, nth). */
  method BlockTable(nth: nat, nodes: nat) returns (blocks: seq<NumaBlock>)
    requires nodes > 0
    ensures |blocks| == nodes && forall nid :: 0 <= nid < nodes ==> blocks[nid] == BlockOf(nth, nodes, nid)
  {
    var base, remain := nth / nodes, nth % nodes;
    var currentBlock := 0;
    blocks := [];
    hide Split, PartSize;
    SplitEnds(nth, nodes);
    for nid := 0 to nodes
      invariant |blocks| == nid && currentBlock == Split(nth, nodes, nid)
      invariant forall n :: 0 <= n < nid ==> blocks[n] == BlockOf(nth, nodes, n)
    {
      var numBlocks := base + if nid < remain then 1 else 0;
      PartSizeIs(nth, nodes, nid);
      blocks := blocks + [NumaBlock(currentBlock, numBlocks)];
      SplitStep(nth, nodes, nid);
      currentBlock := currentBlock + numBlocks;
    }
  }

  /** What a callback on the node of b makes of a task id: the round (an expert, an assignment or a token)
      and the block's offset within the node. */
  function Decode(b: NumaBlock, k: nat, id: int): (int, int)
    requires b.num > 0
  {
    ((id - b.start * k) / b.num, (id - b.start * k) % b.num)
  }

  lemma NodeInterval(nodes: nat, k: nat, nth: nat, nd: nat, id: int)
    requires nodes > 0 && nd < nodes
    ensures var b := BlockOf(nth, nodes, nd);
      && b.start + b.num <= nth
      && (OnNode(nodes, k, nth, nd, id) <==> 0 <= id - b.start * k < Area(k, b.num))
  {
    NodeStartStep(nodes, k, nth, nd);
    SplitStep(nth, nodes, nd);
    SplitMonotone(nth, nodes, nd + 1, nodes);
    SplitEnds(nth, nodes);
    hide Split, PartSize;
    assert NodeTasks(nodes, k, nth, nd) == Area(k, PartSize(nth, nodes, nd));
  }

  lemma DecodeInside(b: NumaBlock, k: nat, id: int)
    requires 0 <= id - b.start * k < Area(k, b.num)
    ensures b.num > 0
    ensures var (row, offset) := Decode(b, k, id);
      0 <= row < k && 0 <= offset < b.num && id == b.start * k + Flat(row, offset, b.num)
  {
    Unflat(id - b.start * k, b.num, k);
    hide Flat;
  }

  /** Every task the scheduler runs on node nd decodes to a round and a block of that node; the dividend
      is never negative, so the source's truncating division is Dafny's. */
  lemma TaskIsCell(nodes: nat, k: nat, nth: nat, nd: nat, id: int)
    requires nodes > 0 && OnNode(nodes, k, nth, nd, id)
    ensures nd < nodes
    ensures var b := BlockOf(nth, nodes, nd);
      && b.num > 0 && id - b.start * k >= 0 && b.start + b.num <= nth
      && var (row, offset) := Decode(b, k, id);
        0 <= row < k && 0 <= offset < b.num && id == b.start * k + Flat(row, offset, b.num)
  {
    NodeInterval(nodes, k, nth, nd, id);
    DecodeInside(BlockOf(nth, nodes, nd), k, id);
  }

  /** And the other way round: each (round, block of node nd) comes from exactly one task id, run on nd. */
  lemma CellIsTask(nodes: nat, k: nat, nth: nat, nd: nat, row: nat, offset: nat)
    requires nodes > 0 && nd < nodes && row < k && offset < PartSize(nth, nodes, nd)
    ensures var b := BlockOf(nth, nodes, nd);
      var id := b.start * k + Flat(row, offset, b.num);
      OnNode(nodes, k, nth, nd, id) && Decode(b, k, id) == (row, offset)
  {
    var b := BlockOf(nth, nodes, nd);
    FlatBound(row, offset, b.num, k);
    FlatInverse(row, offset, b.num);
    NodeInterval(nodes, k, nth, nd, b.start * k + Flat(row, offset, b.num));
  }

  /** Every block belongs to one node. */
  lemma OwnerOf(nodes: nat, nth: nat, block: nat) returns (nd: nat, offset: nat)
    requires nodes > 0 && block < nth
    ensures nd < nodes && offset < PartSize(nth, nodes, nd) && block == BlockOf(nth, nodes, nd).start + offset
  {
    SplitEnds(nth, nodes);
    nd := SplitFind(nth, nodes, block, nodes);
    SplitStep(nth, nodes, nd);
    offset := block - Split(nth, nodes, nd);
  }

  /** A job of one round with as many blocks as nodes runs task nid on node nid: the constructor's
      assertion nid == task_id cannot fail. */
  lemma OneTaskPerNode(nodes: nat, nd: nat, id: int)
    requires nodes > 0
    ensures OnNode(nodes, 1, nodes, nd, id) <==> nd < nodes && id == nd
  {
    assert forall j: nat :: j <= nodes ==> Split(nodes, nodes, j) == j by {
      assert nodes / nodes == 1 && nodes % nodes == 0;
    }
  }

  // ----- A job seen through the decoding.

  datatype Cell = Cell(row: nat, block: nat)

  /** The (round, block) a task stands for, the block counted over all nodes. */
  function CellOf(nodes: nat, k: nat, nth: nat, task: (nat, int)): (c: Cell)
    requires nodes > 0 && OnNode(nodes, k, nth, task.0, task.1)
    ensures c.row < k && c.block < nth
  {
    TaskIsCell(nodes, k, nth, task.0, task.1);
    var b := BlockOf(nth, nodes, task.0);
    var (row, offset) := Decode(b, k, task.1);
    Cell(row, b.start + offset)
  }

  ghost predicate CellRan(ran: seq<(nat, int)>, i: int, nodes: nat, k: nat, nth: nat, c: Cell)
  {
    && nodes > 0 && 0 <= i < |ran| && OnNode(nodes, k, nth, ran[i].0, ran[i].1) && CellOf(nodes, k, nth, ran[i]) == c
  }

  /** `ran` goes through the k x nth cells, each exactly once. */
  ghost predicate Enumerates(ran: seq<(nat, int)>, nodes: nat, k: nat, nth: nat) {
    && nodes > 0
    && (forall i :: 0 <= i < |ran| ==> OnNode(nodes, k, nth, ran[i].0, ran[i].1))
    && (forall i, j :: 0 <= i < j < |ran| ==> CellOf(nodes, k, nth, ran[i]) != CellOf(nodes, k, nth, ran[j]))
    && (forall c: Cell :: c.row < k && c.block < nth ==> exists i :: CellRan(ran, i, nodes, k, nth, c))
  }

  lemma SameCellSameTask(nodes: nat, k: nat, nth: nat, a: (nat, int), b: (nat, int))
    requires nodes > 0 && OnNode(nodes, k, nth, a.0, a.1) && OnNode(nodes, k, nth, b.0, b.1)
    requires CellOf(nodes, k, nth, a) == CellOf(nodes, k, nth, b)
    ensures a == b
  {
    TaskIsCell(nodes, k, nth, a.0, a.1);
    TaskIsCell(nodes, k, nth, b.0, b.1);
    var block := CellOf(nodes, k, nth, a).block;
    SplitStep(nth, nodes, a.0);
    SplitStep(nth, nodes, b.0);
    SplitUnique(nth, nodes, block, a.0, b.0);
  }

  lemma NoRepeats(ran: seq<(nat, int)>, i: nat, j: nat)
    requires i < j < |ran| && multiset(ran)[ran[i]] <= 1
    ensures ran[i] != ran[j]
  {
    assert ran == ran[..j] + ran[j..];
    assert multiset(ran) == multiset(ran[..j]) + multiset(ran[j..]);
    assert ran[..j][i] == ran[i] && ran[j..][0] == ran[j];
    assert ran[i] in multiset(ran[..j]) && ran[j] in multiset(ran[j..]);
  }

  lemma TaskOfCell(ran: seq<(nat, int)>, nodes: nat, k: nat, nth: nat, c: Cell) returns (i: nat)
    requires nodes > 0 && RanOnce(ran, nodes, k, nth) && c.row < k && c.block < nth
    ensures CellRan(ran, i, nodes, k, nth, c)
  {
    var nd, offset := OwnerOf(nodes, nth, c.block);
    CellIsTask(nodes, k, nth, nd, c.row, offset);
    var b := BlockOf(nth, nodes, nd);
    var id := b.start * k + Flat(c.row, offset, b.num);
    assert multiset(ran)[(nd, id)] == 1 && (nd, id) in multiset(ran);
    i :| 0 <= i < |ran| && ran[i] == (nd, id);
  }

  /** Whatever order the scheduler runs a job in, its callbacks go through all (round, block) cells once. */
  lemma JobEnumerates(ran: seq<(nat, int)>, nodes: nat, k: nat, nth: nat)
    requires nodes > 0 && RanOnce(ran, nodes, k, nth)
    ensures Enumerates(ran, nodes, k, nth)
  {
    forall i | 0 <= i < |ran| ensures OnNode(nodes, k, nth, ran[i].0, ran[i].1) {
      assert ran[i] in multiset(ran) && multiset(ran)[(ran[i].0, ran[i].1)] > 0;
    }
    hide OnNode;
    forall i, j | 0 <= i < j < |ran| ensures CellOf(nodes, k, nth, ran[i]) != CellOf(nodes, k, nth, ran[j]) {
      assert multiset(ran)[(ran[i].0, ran[i].1)] <= 1;
      NoRepeats(ran, i, j);
      if CellOf(nodes, k, nth, ran[i]) == CellOf(nodes, k, nth, ran[j]) { SameCellSameTask(nodes, k, nth, ran[i], ran[j]); }
    }
    hide RanOnce, CellOf;
    forall c: Cell | c.row < k && c.block < nth ensures exists i :: CellRan(ran, i, nodes, k, nth, c) {
      var i := TaskOfCell(ran, nodes, k, nth, c);
    }
  }
}
