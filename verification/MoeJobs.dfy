/** What the jobs of MOE's forward passes keep while their callbacks run one after another. */
module MoeJobs {
  import opened BackendNumas
  import opened MoeLayout
  import opened MoeReorder
  import opened Moes
  import opened Tables

  // ----- The weighted sum of a token's expert outputs, accumulated in its first row.

  /** Block b of rows[first..first + k] of buf. */
  function Column(buf: seq<Block>, rows: seq<nat>, b: nat, w: nat): seq<Block>
    requires forall i :: 0 <= i < |rows| ==> Flat(rows[i], b, w) < |buf|
  {
    seq(|rows|, i requires 0 <= i < |rows| => buf[Flat(rows[i], b, w)])
  }

  /** The inner loops of the last job: scale the first row, then add the others to it. */
  method MixInPlace(kernel: Kernel, buf0: seq<Block>, rows: seq<nat>, ws: seq<Factor>, b: nat, w: nat) returns (buf: seq<Block>)
    requires 0 < |rows| == |ws| && b < w && forall i :: 0 <= i < |rows| ==> Flat(rows[i], b, w) < |buf0|
    requires forall i :: 0 < i < |rows| ==> rows[i] != rows[0]
    ensures buf == buf0[Flat(rows[0], b, w) := Mix(kernel, Column(buf0, rows, b, w), ws, |rows|)]
  {
    var first := Flat(rows[0], b, w);
    ghost var column := Column(buf0, rows, b, w);
    buf := buf0[first := kernel.scale(buf0[first], ws[0])];
    for i := 1 to |rows|
      invariant buf == buf0[first := Mix(kernel, column, ws, i)]
    {
      FlatInjective(rows[i], b, rows[0], b, w);
      assert buf[Flat(rows[i], b, w)] == column[i];
      buf := buf[first := kernel.mulAdd(buf[first], buf[Flat(rows[i], b, w)], ws[i])];
    }
  }

  /** The row of hidden blocks that the down kernel reads. */
  lemma RowSlice(m: Model, buf: seq<Block>, r: nat, row: Row, e: nat)
    requires Sized(m) && e < m.experts && |buf| >= r * m.nth
    requires forall b :: 0 <= b < m.nth ==> Holds(buf, r, b, m.nth, HiddenBlock(m, row, e, b))
    ensures Flat(r, 0, m.nth) + m.nth <= |buf|
    ensures buf[Flat(r, 0, m.nth)..Flat(r, 0, m.nth) + m.nth] == HiddenRow(m, row, e)
  {
    if m.nth > 0 { assert Holds(buf, r, m.nth - 1, m.nth, HiddenBlock(m, row, e, m.nth - 1)); }
    hide HiddenBlock;
    var hidden := HiddenRow(m, row, e);
    forall b | 0 <= b < m.nth ensures buf[Flat(r, 0, m.nth)..Flat(r, 0, m.nth) + m.nth][b] == hidden[b] {
      assert Holds(buf, r, b, m.nth, HiddenBlock(m, row, e, b));
    }
  }

  /** Every block of every row lies inside buf. */
  ghost predicate RowsFit(buf: seq<Block>, rows: seq<nat>, w: nat) {
    forall p, b :: 0 <= p < |rows| && 0 <= b < w ==> Flat(rows[p], b, w) < |buf|
  }

  ghost predicate Distinct(rows: seq<nat>) {
    forall p, q :: 0 <= p < q < |rows| ==> rows[p] != rows[q]
  }

  /** The rows of token t: one for each of its k ranks. */
  function Ranks<T>(rows: seq<T>, k: nat, t: nat, qlen: nat): (r: seq<T>)
    requires |rows| == Area(qlen, k) && t < qlen
    ensures |r| == k && forall i :: 0 <= i < k ==> t * k + i < |rows| && r[i] == rows[t * k + i]
  {
    MulLe(t + 1, qlen, k);
    rows[t * k..t * k + k]
  }

  /** Output block (t, b) computed from the expert outputs in buf. */
  ghost function Summed(kernel: Kernel, buf: seq<Block>, rows: seq<nat>, ws: seq<Factor>, qlen: nat, k: nat, w: nat, c: Cell): Out
    requires 0 < k && |rows| == |ws| == Area(qlen, k) && RowsFit(buf, rows, w) && c.row < qlen && c.block < w
  {
    kernel.store(Mix(kernel, Column(buf, Ranks(rows, k, c.row, qlen), c.block, w), Ranks(ws, k, c.row, qlen), k))
  }

  /** The k values that cell c sums up are still those of buf0. */
  ghost predicate Pending(buf: seq<Block>, buf0: seq<Block>, rows: seq<nat>, qlen: nat, k: nat, w: nat, c: Cell)
    requires |rows| == Area(qlen, k) && RowsFit(buf0, rows, w) && |buf| == |buf0|
  {
    c.row < qlen && c.block < w &&
    Column(buf, Ranks(rows, k, c.row, qlen), c.block, w) == Column(buf0, Ranks(rows, k, c.row, qlen), c.block, w)
  }

  /** Accumulating into the first row of token c.row does not disturb what another cell sums up. */
  lemma PendingKept(buf: seq<Block>, buf0: seq<Block>, rows: seq<nat>, qlen: nat, k: nat, w: nat, c: Cell, v: Block, d: Cell)
    requires |rows| == Area(qlen, k) && RowsFit(buf0, rows, w) && |buf| == |buf0| && Distinct(rows) && 0 < k
    requires c.row < qlen && c.block < w && c != d && Pending(buf, buf0, rows, qlen, k, w, d)
    ensures Pending(buf[Flat(Ranks(rows, k, c.row, qlen)[0], c.block, w) := v], buf0, rows, qlen, k, w, d)
  {
    var mine, theirs := Ranks(rows, k, c.row, qlen), Ranks(rows, k, d.row, qlen);
    var buf' := buf[Flat(mine[0], c.block, w) := v];
    forall i | 0 <= i < k ensures Column(buf', theirs, d.block, w)[i] == Column(buf, theirs, d.block, w)[i] {
      FlatInjective(mine[0], c.block, theirs[i], d.block, w);
      FlatInjective(c.row, 0, d.row, i, k);
    }
  }

  // ----- The loop that sums up the tokens.

  ghost predicate Wrote(output: seq<Out>, at: nat, w: nat, c: Cell, v: Out) {
    at + Flat(c.row, c.block, w) < |output| && output[at + Flat(c.row, c.block, w)] == v
  }

  /** i tasks have run: their cells are written, the other cells still find their summands. */
  ghost predicate SumState(kernel: Kernel, buf: seq<Block>, buf0: seq<Block>, output: seq<Out>, at: nat, ran: seq<(nat, int)>,
                           i: nat, nodes: nat, rows: seq<nat>, ws: seq<Factor>, qlen: nat, k: nat, w: nat)
  {
    && Enumerates(ran, nodes, qlen, w) && i <= |ran| && |buf| == |buf0| && at + Area(qlen, w) <= |output|
    && 0 < k && |rows| == |ws| == Area(qlen, k) && RowsFit(buf0, rows, w) && Distinct(rows)
    && (forall j :: i <= j < |ran| ==> Pending(buf, buf0, rows, qlen, k, w, CellOf(nodes, qlen, w, ran[j])))
    && (forall j :: 0 <= j < i ==> WroteSum(kernel, buf0, output, at, rows, ws, qlen, k, w, CellOf(nodes, qlen, w, ran[j])))
  }

  ghost predicate WroteSum(kernel: Kernel, buf0: seq<Block>, output: seq<Out>, at: nat, rows: seq<nat>, ws: seq<Factor>,
                           qlen: nat, k: nat, w: nat, c: Cell)
    requires 0 < k && |rows| == |ws| == Area(qlen, k) && RowsFit(buf0, rows, w)
  {
    c.row < qlen && c.block < w && Wrote(output, at, w, c, Summed(kernel, buf0, rows, ws, qlen, k, w, c))
  }

  lemma SumStart(kernel: Kernel, buf0: seq<Block>, output: seq<Out>, at: nat, ran: seq<(nat, int)>,
                 nodes: nat, rows: seq<nat>, ws: seq<Factor>, qlen: nat, k: nat, w: nat)
    requires Enumerates(ran, nodes, qlen, w) && at + Area(qlen, w) <= |output|
    requires 0 < k && |rows| == |ws| == Area(qlen, k) && RowsFit(buf0, rows, w) && Distinct(rows)
    ensures SumState(kernel, buf0, buf0, output, at, ran, 0, nodes, rows, ws, qlen, k, w)
  {
    hide CellOf, Flat, OnNode;
  }

  lemma SumNext(kernel: Kernel, buf: seq<Block>, buf0: seq<Block>, output: seq<Out>, at: nat, ran: seq<(nat, int)>,
                i: nat, nodes: nat, rows: seq<nat>, ws: seq<Factor>, qlen: nat, k: nat, w: nat) returns (c: Cell)
    requires SumState(kernel, buf, buf0, output, at, ran, i, nodes, rows, ws, qlen, k, w) && i < |ran|
    ensures nodes > 0 && OnNode(nodes, qlen, w, ran[i].0, ran[i].1) && c == CellOf(nodes, qlen, w, ran[i])
    ensures Column(buf, Ranks(rows, k, c.row, qlen), c.block, w) == Column(buf0, Ranks(rows, k, c.row, qlen), c.block, w)
    ensures forall l :: 0 <= l < k ==> Flat(Ranks(rows, k, c.row, qlen)[l], c.block, w) < |buf|
    ensures forall l :: 0 < l < k ==> Ranks(rows, k, c.row, qlen)[l] != Ranks(rows, k, c.row, qlen)[0]
  {
    hide OnNode, Flat;
    c := CellOf(nodes, qlen, w, ran[i]);
    hide CellOf;
  }

  lemma SumStep(kernel: Kernel, buf: seq<Block>, buf0: seq<Block>, output: seq<Out>, at: nat, ran: seq<(nat, int)>,
                i: nat, nodes: nat, rows: seq<nat>, ws: seq<Factor>, qlen: nat, k: nat, w: nat, c: Cell)
    requires SumState(kernel, buf, buf0, output, at, ran, i, nodes, rows, ws, qlen, k, w) && i < |ran|
    requires c == CellOf(nodes, qlen, w, ran[i])
    ensures var mine := Ranks(rows, k, c.row, qlen);
      var v := Mix(kernel, Column(buf, mine, c.block, w), Ranks(ws, k, c.row, qlen), k);
      Flat(mine[0], c.block, w) < |buf| && at + Flat(c.row, c.block, w) < |output| &&
      SumState(kernel, buf[Flat(mine[0], c.block, w) := v], buf0,
               output[at + Flat(c.row, c.block, w) := kernel.store(v)], at, ran, i + 1, nodes, rows, ws, qlen, k, w)
  {
    FlatBound(c.row, c.block, w, qlen);
    hide OnNode, CellOf, Flat;
    var mine := Ranks(rows, k, c.row, qlen);
    var v := Mix(kernel, Column(buf, mine, c.block, w), Ranks(ws, k, c.row, qlen), k);
    var buf', output' := buf[Flat(mine[0], c.block, w) := v], output[at + Flat(c.row, c.block, w) := kernel.store(v)];
    forall j | i + 1 <= j < |ran| ensures Pending(buf', buf0, rows, qlen, k, w, CellOf(nodes, qlen, w, ran[j])) {
      PendingKept(buf, buf0, rows, qlen, k, w, c, v, CellOf(nodes, qlen, w, ran[j]));
    }
    forall j | 0 <= j < i + 1 ensures WroteSum(kernel, buf0, output', at, rows, ws, qlen, k, w, CellOf(nodes, qlen, w, ran[j])) {
      var d := CellOf(nodes, qlen, w, ran[j]);
      FlatInjective(c.row, c.block, d.row, d.block, w);
    }
  }

  lemma SumDone(kernel: Kernel, buf: seq<Block>, buf0: seq<Block>, output: seq<Out>, at: nat, ran: seq<(nat, int)>,
                nodes: nat, rows: seq<nat>, ws: seq<Factor>, qlen: nat, k: nat, w: nat)
    requires SumState(kernel, buf, buf0, output, at, ran, |ran|, nodes, rows, ws, qlen, k, w)
    ensures |buf| == |buf0|
    ensures forall t, b :: 0 <= t < qlen && 0 <= b < w ==>
      Wrote(output, at, w, Cell(t, b), Summed(kernel, buf0, rows, ws, qlen, k, w, Cell(t, b)))
  {
    hide CellOf, Flat, OnNode;
    forall t, b | 0 <= t < qlen && 0 <= b < w
      ensures Wrote(output, at, w, Cell(t, b), Summed(kernel, buf0, rows, ws, qlen, k, w, Cell(t, b)))
    {
      var i :| CellRan(ran, i, nodes, qlen, w, Cell(t, b));
      assert WroteSum(kernel, buf0, output, at, rows, ws, qlen, k, w, CellOf(nodes, qlen, w, ran[i]));
    }
  }

  // ----- Jobs of one round: the task id is the block.

  lemma OneRound(nodes: nat, n: nat, task: (nat, int))
    requires nodes > 0 && OnNode(nodes, 1, n, task.0, task.1)
    ensures 0 <= task.1 < n && CellOf(nodes, 1, n, task) == Cell(0, task.1)
  {
    TaskIsCell(nodes, 1, n, task.0, task.1);
  }

  ghost predicate Started(ran: seq<(nat, int)>, id: int) {
    exists i :: 0 <= i < |ran| && ran[i].1 == id
  }

  /** A job of one round over n tasks starts the task ids 0 to n - 1. */
  lemma OneRoundIds(ran: seq<(nat, int)>, nodes: nat, n: nat)
    requires Enumerates(ran, nodes, 1, n)
    ensures forall i :: 0 <= i < |ran| ==> 0 <= ran[i].1 < n
    ensures forall p :: 0 <= p < n ==> Started(ran, p)
  {
    forall i | 0 <= i < |ran| ensures 0 <= ran[i].1 < n { OneRound(nodes, n, ran[i]); }
    forall p | 0 <= p < n ensures Started(ran, p) {
      var i :| CellRan(ran, i, nodes, 1, n, Cell(0, p));
      OneRound(nodes, n, ran[i]);
    }
  }

  // ----- Jobs over the experts: each task fills one block of all rows of its expert.

  ghost predicate Held(ids: seq<nat>, r: nat) {
    exists p: nat :: p < |ids| && RowOf(ids, p) == r
  }

  lemma AllHeld(ids: seq<nat>, experts: nat)
    requires forall p :: 0 <= p < |ids| ==> ids[p] < experts
    ensures forall r: nat :: r < |ids| ==> Held(ids, r)
  {
    forall r: nat | r < |ids| ensures Held(ids, r) { var p := ReorderIsBijection(ids, experts, r); }
  }

  /** The assignment that row r was made for. */
  ghost function Holder(ids: seq<nat>, r: nat): (p: nat)
    requires Held(ids, r)
    ensures p < |ids| && RowOf(ids, p) == r
  {
    var p: nat :| p < |ids| && RowOf(ids, p) == r;
    p
  }

  /** Row r belongs to expert e. */
  ghost predicate RowOfExpert(ids: seq<nat>, e: nat, r: nat) {
    Offset(ids, e, |ids|) <= r < Offset(ids, e, |ids|) + Count(ids, e, |ids|)
  }

  lemma HolderIs(ids: seq<nat>, p: nat)
    requires p < |ids|
    ensures Held(ids, RowOf(ids, p)) && Holder(ids, RowOf(ids, p)) == p
  {
    var q := Holder(ids, RowOf(ids, p));
    if q < p { RowsApart(ids, q, p); }
    if p < q { RowsApart(ids, p, q); }
  }

  /** Row r of expert e is within the gather buffer, and was made for an assignment to e. */
  lemma ExpertHolds(ids: seq<nat>, experts: nat, e: nat, r: nat)
    requires RowOfExpert(ids, e, r) && forall p :: 0 <= p < |ids| ==> ids[p] < experts
    ensures r < |ids| && Held(ids, r) && ids[Holder(ids, r)] == e
  {
    var p := RowHolder(ids, e, r - Offset(ids, e, |ids|), |ids|);
    RowInRange(ids, experts, p);
    HolderIs(ids, p);
  }

  /** Block b of the rows of expert e below `upTo` holds g(row, b). */
  ghost predicate RowsHold<T>(buf: seq<T>, ids: seq<nat>, e: nat, b: nat, w: nat, upTo: nat, g: (nat, nat) --> T)
    requires forall r: nat, b': nat :: r < |ids| && b' < w ==> g.requires(r, b')
  {
    forall r: nat :: RowOfExpert(ids, e, r) && r < upTo && r < |ids| && b < w ==> Holds(buf, r, b, w, g(r, b))
  }

  /** The first n tasks of the job have filled their expert's rows. */
  ghost predicate RowsFilled<T>(buf: seq<T>, ran: seq<(nat, int)>, n: nat, nodes: nat, experts: nat, ids: seq<nat>, w: nat, g: (nat, nat) --> T)
  {
    && Enumerates(ran, nodes, experts, w) && n <= |ran|
    && (forall r: nat, b: nat :: r < |ids| && b < w ==> g.requires(r, b))
    && (forall j :: 0 <= j < n ==> RowsHoldTask(buf, ids, CellOf(nodes, experts, w, ran[j]), w, g))
  }

  ghost predicate RowsHoldTask<T>(buf: seq<T>, ids: seq<nat>, c: Cell, w: nat, g: (nat, nat) --> T)
    requires forall r: nat, b: nat :: r < |ids| && b < w ==> g.requires(r, b)
  {
    RowsHold(buf, ids, c.row, c.block, w, |ids|, g)
  }

  lemma RowsFilledNone<T>(buf: seq<T>, ran: seq<(nat, int)>, nodes: nat, experts: nat, ids: seq<nat>, w: nat, g: (nat, nat) --> T)
    requires Enumerates(ran, nodes, experts, w) && forall r: nat, b: nat :: r < |ids| && b < w ==> g.requires(r, b)
    ensures RowsFilled(buf, ran, 0, nodes, experts, ids, w, g)
  {
  }

  lemma RowsFilledOn<T>(buf: seq<T>, ran: seq<(nat, int)>, n: nat, nodes: nat, experts: nat, ids: seq<nat>, w: nat, g: (nat, nat) --> T)
    requires RowsFilled(buf, ran, n, nodes, experts, ids, w, g) && n < |ran|
    ensures OnNode(nodes, experts, w, ran[n].0, ran[n].1)
  {
  }

  lemma RowsHoldNone<T>(buf: seq<T>, ids: seq<nat>, e: nat, b: nat, w: nat, g: (nat, nat) --> T)
    requires forall r: nat, b': nat :: r < |ids| && b' < w ==> g.requires(r, b')
    ensures RowsHold(buf, ids, e, b, w, Offset(ids, e, |ids|), g)
  {
  }

  lemma RowWritten<T>(buf: seq<T>, ids: seq<nat>, r: nat, b: nat, w: nat, g: (nat, nat) --> T, e: nat, b': nat, upTo: nat)
    requires forall r: nat, b: nat :: r < |ids| && b < w ==> g.requires(r, b)
    requires r < |ids| && b < w && Flat(r, b, w) < |buf| && RowsHold(buf, ids, e, b', w, upTo, g)
    ensures RowsHold(buf[Flat(r, b, w) := g(r, b)], ids, e, b', w, if b' == b && upTo == r then r + 1 else upTo, g)
  {
    hide Flat, Holds, Offset, Count, RowOfExpert;
    var buf' := buf[Flat(r, b, w) := g(r, b)];
    forall r': nat | RowOfExpert(ids, e, r') && r' < |ids| && b' < w && (r' < upTo || (r' == r && b' == b))
      ensures Holds(buf', r', b', w, g(r', b'))
    {
      WriteHolds(buf, r, b, w, g(r, b), r', b', g(r', b'));
    }
  }

  /** One more row of the current task. */
  lemma RowsFilledWrite<T>(buf: seq<T>, ran: seq<(nat, int)>, n: nat, nodes: nat, experts: nat, ids: seq<nat>, w: nat,
                           g: (nat, nat) --> T, r: nat, c: Cell)
    requires RowsFilled(buf, ran, n, nodes, experts, ids, w, g) && r < |ids| && c.block < w && Flat(r, c.block, w) < |buf|
    requires RowsHold(buf, ids, c.row, c.block, w, r, g)
    ensures RowsFilled(buf[Flat(r, c.block, w) := g(r, c.block)], ran, n, nodes, experts, ids, w, g)
    ensures RowsHold(buf[Flat(r, c.block, w) := g(r, c.block)], ids, c.row, c.block, w, r + 1, g)
  {
    hide Flat, Holds, CellOf, OnNode, RowOfExpert, RowsHold;
    RowWritten(buf, ids, r, c.block, w, g, c.row, c.block, r);
    var buf' := buf[Flat(r, c.block, w) := g(r, c.block)];
    forall j | 0 <= j < n ensures RowsHoldTask(buf', ids, CellOf(nodes, experts, w, ran[j]), w, g) {
      var d := CellOf(nodes, experts, w, ran[j]);
      RowWritten(buf, ids, r, c.block, w, g, d.row, d.block, |ids|);
    }
  }

  lemma RowsFilledNext<T>(buf: seq<T>, ran: seq<(nat, int)>, n: nat, nodes: nat, experts: nat, ids: seq<nat>, w: nat,
                          g: (nat, nat) --> T, upTo: nat, c: Cell)
    requires RowsFilled(buf, ran, n, nodes, experts, ids, w, g) && n < |ran| && c == CellOf(nodes, experts, w, ran[n])
    requires RowsHold(buf, ids, c.row, c.block, w, upTo, g) && upTo >= Offset(ids, c.row, |ids|) + Count(ids, c.row, |ids|)
    ensures RowsFilled(buf, ran, n + 1, nodes, experts, ids, w, g)
  {
    hide Flat, Holds, CellOf, OnNode, Offset, Count;
    assert RowsHold(buf, ids, c.row, c.block, w, |ids|, g) by {
      forall r: nat | RowOfExpert(ids, c.row, r) && r < |ids| && c.block < w ensures Holds(buf, r, c.block, w, g(r, c.block)) {
        assert r < upTo;
      }
    }
  }

  lemma RowsFilledAt<T>(buf: seq<T>, ran: seq<(nat, int)>, nodes: nat, experts: nat, ids: seq<nat>, w: nat, g: (nat, nat) --> T,
                        p: nat, b: nat)
    requires RowsFilled(buf, ran, |ran|, nodes, experts, ids, w, g) && p < |ids| && b < w
    requires forall p :: 0 <= p < |ids| ==> ids[p] < experts
    ensures RowOf(ids, p) < |ids| && Holds(buf, RowOf(ids, p), b, w, g(RowOf(ids, p), b))
  {
    hide Flat, Holds, OnNode, CellOf;
    var i :| CellRan(ran, i, nodes, experts, w, Cell(ids[p], b));
    assert RowsHoldTask(buf, ids, CellOf(nodes, experts, w, ran[i]), w, g);
    RowInRange(ids, experts, p);
    RowInBlock(ids, p);
    assert RowOfExpert(ids, ids[p], RowOf(ids, p));
  }

  /** What the gate/up job leaves in row r, and what the down job makes of it. */
  ghost function HiddenAt(m: Model, rowsIn: seq<Row>, ids: seq<nat>, r: nat, b: nat): Block
    requires Sized(m) && Routed(m, ids) && Held(ids, r) && r < |rowsIn| && b < m.nth
  {
    HiddenBlock(m, rowsIn[r], ids[Holder(ids, r)], b)
  }

  ghost function DownAt(m: Model, up: seq<Block>, ids: seq<nat>, r: nat, b: nat): Block
    requires Sized(m) && Routed(m, ids) && Held(ids, r) && Flat(r, 0, m.nth) + m.nth <= |up| && b < m.nthDown
  {
    FlatBound(ids[Holder(ids, r)], b, m.nthDown, m.experts);
    m.kernel.down(m.down[Flat(ids[Holder(ids, r)], b, m.nthDown)], up[Flat(r, 0, m.nth)..Flat(r, 0, m.nth) + m.nth])
  }

  ghost predicate HiddenDone(m: Model, up: seq<Block>, rowsIn: seq<Row>, ids: seq<nat>, p: nat, b: nat)
    requires Sized(m) && Routed(m, ids) && p < |ids| && b < m.nth
  {
    RowOf(ids, p) < |rowsIn| && Holds(up, RowOf(ids, p), b, m.nth, HiddenBlock(m, rowsIn[RowOf(ids, p)], ids[p], b))
  }

  ghost predicate DownDone(m: Model, down: seq<Block>, up: seq<Block>, ids: seq<nat>, p: nat, b: nat)
    requires Sized(m) && Routed(m, ids) && p < |ids| && b < m.nthDown
  {
    var r := RowOf(ids, p);
    FlatBound(ids[p], b, m.nthDown, m.experts);
    && Flat(r, 0, m.nth) + m.nth <= |up|
    && Holds(down, r, b, m.nthDown, m.kernel.down(m.down[Flat(ids[p], b, m.nthDown)], up[Flat(r, 0, m.nth)..Flat(r, 0, m.nth) + m.nth]))
  }

  lemma RowsInside(n: nat, rows: nat, w: nat)
    requires n <= rows
    ensures forall r: nat :: r < n ==> Flat(r, 0, w) + w <= Area(rows, w)
  {
    forall r: nat | r < n ensures Flat(r, 0, w) + w <= Area(rows, w) { MulLe(r + 1, rows, w); }
  }

  lemma GroupFits(qlen: nat, groupMaxLen: nat, k: nat, routed: nat)
    requires qlen <= groupMaxLen && k <= routed
    ensures Area(qlen, k) <= Area(groupMaxLen, routed)
  {
    MulLe(qlen, groupMaxLen, k);
    MulLe(k, routed, groupMaxLen);
  }

  ghost predicate Gathered(ids: seq<nat>, k: nat, mInput: seq<Row>, input: seq<Row>, p: nat) {
    0 < k && p < |ids| && RowOf(ids, p) < |mInput| && p / k < |input| && mInput[RowOf(ids, p)] == input[p / k]
  }

  lemma GatherKeeps(ids: seq<nat>, k: nat, mInput: seq<Row>, input: seq<Row>, q: nat, p: nat)
    requires 0 < k && q < |ids| && RowOf(ids, q) < |mInput| && q / k < |input|
    requires Gathered(ids, k, mInput, input, p) || p == q
    ensures Gathered(ids, k, mInput[RowOf(ids, q) := input[q / k]], input, p)
  {
    if p < q { RowsApart(ids, p, q); }
    if q < p { RowsApart(ids, q, p); }
    hide RowOf;
  }

  // ----- The output of a token.

  /** The token of assignment p. */
  function TokenOf(xs: seq<Input>, k: nat, p: nat): Input
    requires p < Area(|xs|, k)
  {
    Unflat(p, k, |xs|);
    xs[p / k]
  }

  /** rows[p] holds the output row of assignment p's expert for its token. */
  ghost predicate ExpertsDone(m: Model, buf: seq<Block>, rows: seq<nat>, ids: seq<nat>, xs: seq<Input>, k: nat)
    requires Sized(m) && Routed(m, ids) && |rows| == |ids| == Area(|xs|, k)
  {
    forall p, b :: 0 <= p < |ids| && 0 <= b < m.nthDown ==>
      Holds(buf, rows[p], b, m.nthDown, ExpertBlock(m, m.kernel.load(TokenOf(xs, k, p)), ids[p], b))
  }

  lemma ExpertsFit(m: Model, buf: seq<Block>, rows: seq<nat>, ids: seq<nat>, xs: seq<Input>, k: nat)
    requires Sized(m) && Routed(m, ids) && |rows| == |ids| == Area(|xs|, k) && ExpertsDone(m, buf, rows, ids, xs, k)
    ensures RowsFit(buf, rows, m.nthDown)
  {
    hide Flat, ExpertBlock, TokenOf;
    forall p, b | 0 <= p < |rows| && 0 <= b < m.nthDown ensures Flat(rows[p], b, m.nthDown) < |buf| {
      assert Holds(buf, rows[p], b, m.nthDown, ExpertBlock(m, m.kernel.load(TokenOf(xs, k, p)), ids[p], b));
    }
  }

  /** Summing up a token's rows gives the token's output. */
  lemma SummedIsToken(m: Model, buf: seq<Block>, rows: seq<nat>, ids: seq<nat>, ws: seq<Factor>, xs: seq<Input>, k: nat, t: nat, b: nat)
    requires Sized(m) && Routed(m, ids) && 0 < k && |rows| == |ids| == |ws| == Area(|xs|, k) && t < |xs| && b < m.nthDown
    requires ExpertsDone(m, buf, rows, ids, xs, k) && RowsFit(buf, rows, m.nthDown)
    ensures Summed(m.kernel, buf, rows, ws, |xs|, k, m.nthDown, Cell(t, b))
         == TokenBlock(m, xs[t], Ranks(ids, k, t, |xs|), Ranks(ws, k, t, |xs|), b)
  {
    var mine, es := Ranks(rows, k, t, |xs|), Ranks(ids, k, t, |xs|);
    var row := m.kernel.load(xs[t]);
    hide Flat, ExpertBlock;
    forall i | 0 <= i < k ensures Column(buf, mine, b, m.nthDown)[i] == ExpertBlock(m, row, es[i], b) {
      TokenAt(xs, k, t, i);
      assert Holds(buf, rows[t * k + i], b, m.nthDown, ExpertBlock(m, m.kernel.load(TokenOf(xs, k, t * k + i)), ids[t * k + i], b));
    }
    assert Column(buf, mine, b, m.nthDown) == seq(k, i requires 0 <= i < k => ExpertBlock(m, row, es[i], b));
  }

  lemma TokenAt(xs: seq<Input>, k: nat, t: nat, i: nat)
    requires t < |xs| && i < k
    ensures t * k + i < Area(|xs|, k) && TokenOf(xs, k, t * k + i) == xs[t]
  {
    FlatBound(t, i, k, |xs|);
    FlatInverse(t, i, k);
  }

  ghost predicate OutputIs(output: seq<Out>, q: nat, v: Out) {
    q < |output| && output[q] == v
  }

  /** The output from `at` on is token x's. */
  ghost predicate TokenWritten(output: seq<Out>, at: nat, m: Model, x: Input, es: seq<nat>, ws: seq<Factor>)
    requires Sized(m) && Routed(m, es) && 0 < |es| == |ws|
  {
    forall b: nat :: b < m.nthDown ==> OutputIs(output, at + b, TokenBlock(m, x, es, ws, b))
  }

  lemma TokensWritten(m: Model, buf: seq<Block>, rows: seq<nat>, ids: seq<nat>, ws: seq<Factor>, xs: seq<Input>, k: nat,
                      output: seq<Out>, at: nat, t: nat)
    requires Sized(m) && Routed(m, ids) && 0 < k && |rows| == |ids| == |ws| == Area(|xs|, k) && t < |xs|
    requires ExpertsDone(m, buf, rows, ids, xs, k) && RowsFit(buf, rows, m.nthDown)
    requires forall t, b :: 0 <= t < |xs| && 0 <= b < m.nthDown ==>
      Wrote(output, at, m.nthDown, Cell(t, b), Summed(m.kernel, buf, rows, ws, |xs|, k, m.nthDown, Cell(t, b)))
    ensures TokenWritten(output, at + Area(t, m.nthDown), m, xs[t], Ranks(ids, k, t, |xs|), Ranks(ws, k, t, |xs|))
  {
    hide TokenBlock, Summed, ExpertsDone, RowsFit, Ranks;
    forall b: nat | b < m.nthDown
      ensures OutputIs(output, at + Area(t, m.nthDown) + b, TokenBlock(m, xs[t], Ranks(ids, k, t, |xs|), Ranks(ws, k, t, |xs|), b))
    {
      SummedIsToken(m, buf, rows, ids, ws, xs, k, t, b);
      assert Wrote(output, at, m.nthDown, Cell(t, b), Summed(m.kernel, buf, rows, ws, |xs|, k, m.nthDown, Cell(t, b)));
    }
  }

  /** After the four jobs each assignment's row holds its expert's output for its token. */
  lemma ManyDone(m: Model, down: seq<Block>, up: seq<Block>, mInput: seq<Row>, input: seq<Row>, rows: seq<nat>, ids: seq<nat>,
                 xs: seq<Input>, k: nat)
    requires Sized(m) && Routed(m, ids) && 0 < k && |rows| == |ids| == Area(|xs|, k)
    requires |xs| <= |input| && forall t :: 0 <= t < |xs| ==> input[t] == m.kernel.load(xs[t])
    requires forall p :: 0 <= p < |ids| ==> rows[p] == RowOf(ids, p) && Gathered(ids, k, mInput, input, p)
    requires forall p, b :: 0 <= p < |ids| && 0 <= b < m.nth ==> HiddenDone(m, up, mInput, ids, p, b)
    requires forall p, b :: 0 <= p < |ids| && 0 <= b < m.nthDown ==> DownDone(m, down, up, ids, p, b)
    ensures Distinct(rows) && ExpertsDone(m, down, rows, ids, xs, k) && RowsFit(down, rows, m.nthDown)
  {
    forall p, q | 0 <= p < q < |rows| ensures rows[p] != rows[q] { RowsApart(ids, p, q); }
    hide RowOf, HiddenBlock, Holds;
    forall p, b | 0 <= p < |ids| && 0 <= b < m.nthDown
      ensures Holds(down, rows[p], b, m.nthDown, ExpertBlock(m, m.kernel.load(TokenOf(xs, k, p)), ids[p], b))
    {
      AssignmentDone(m, down, up, mInput, input, ids, xs, k, p, b);
    }
    ExpertsFit(m, down, rows, ids, xs, k);
  }

  lemma AssignmentDone(m: Model, down: seq<Block>, up: seq<Block>, mInput: seq<Row>, input: seq<Row>, ids: seq<nat>,
                       xs: seq<Input>, k: nat, p: nat, b: nat)
    requires Sized(m) && Routed(m, ids) && 0 < k && |ids| == Area(|xs|, k) && p < |ids| && b < m.nthDown
    requires |xs| <= |input| && forall t :: 0 <= t < |xs| ==> input[t] == m.kernel.load(xs[t])
    requires Gathered(ids, k, mInput, input, p) && DownDone(m, down, up, ids, p, b)
    requires forall b :: 0 <= b < m.nth ==> HiddenDone(m, up, mInput, ids, p, b)
    ensures Holds(down, RowOf(ids, p), b, m.nthDown, ExpertBlock(m, m.kernel.load(TokenOf(xs, k, p)), ids[p], b))
  {
    hide RowOf, HiddenBlock, Holds;
    var r := RowOf(ids, p);
    var row := m.kernel.load(TokenOf(xs, k, p));
    Unflat(p, k, |xs|);
    assert mInput[r] == row;
    forall b' | 0 <= b' < m.nth ensures Holds(up, r, b', m.nth, HiddenBlock(m, row, ids[p], b')) {
      assert HiddenDone(m, up, mInput, ids, p, b');
    }
    RowSlice(m, up, r, row, ids[p]);
  }

  // ----- The batching loop of forward.

  /** The first n tokens' outputs are what TokenBlock says. */
  ghost predicate AllWritten(output: seq<Out>, m: Model, xs: seq<Input>, k: nat, ids: seq<nat>, ws: seq<Factor>, n: int)
    requires Sized(m) && Routed(m, ids) && 0 < k && |ids| == |ws| == Area(|xs|, k)
  {
    forall t: nat :: t < n && t < |xs| ==>
      TokenWritten(output, Area(t, m.nthDown), m, xs[t], Ranks(ids, k, t, |xs|), Ranks(ws, k, t, |xs|))
  }

  lemma AllWrittenNone(output: seq<Out>, m: Model, xs: seq<Input>, k: nat, ids: seq<nat>, ws: seq<Factor>, n: int)
    requires Sized(m) && Routed(m, ids) && 0 < k && |ids| == |ws| == Area(|xs|, k)
    ensures AllWritten(output, m, xs, k, ids, ws, 0) && (n <= 0 ==> AllWritten(output, m, xs, k, ids, ws, n))
  {
  }

  /** The entries of the `len` tokens from `from` on. */
  function Group<T>(s: seq<T>, k: nat, from: nat, len: nat, qlen: nat): (r: seq<T>)
    requires |s| == Area(qlen, k) && from + len <= qlen
    ensures |r| == Area(len, k)
  {
    AreaLe(from + len, qlen, k);
    AreaAdd(from, len, k);
    s[Area(from, k)..Area(from + len, k)]
  }

  lemma GroupRanks<T>(s: seq<T>, k: nat, from: nat, len: nat, qlen: nat, t: nat)
    requires |s| == Area(qlen, k) && from + len <= qlen && t < len
    ensures Ranks(Group(s, k, from, len, qlen), k, t, len) == Ranks(s, k, from + t, qlen)
  {
    AreaLe(from + len, qlen, k);
    AreaAdd(from, len, k);
    AreaAdd(from, t, k);
    RanksAre(Group(s, k, from, len, qlen), k, t, len);
    RanksAre(s, k, from + t, qlen);
    hide Area, Ranks;
  }

  lemma RanksAre<T>(s: seq<T>, k: nat, t: nat, qlen: nat)
    requires |s| == Area(qlen, k) && t < qlen
    ensures Area(t, k) + k <= |s| && Ranks(s, k, t, qlen) == s[Area(t, k)..Area(t, k) + k]
  {
    MulLe(t + 1, qlen, k);
  }

  lemma OneAfter(m: Model, xs: seq<Input>, k: nat, ids: seq<nat>, t: nat, n: nat)
    requires Routed(m, ids) && t < |xs| && |ids| == Area(|xs|, k) && Area(|xs|, m.nthDown) <= n
    ensures Routed(m, Ranks(ids, k, t, |xs|))
    ensures Area(t, m.nthDown) + m.nthDown == Area(t + 1, m.nthDown) <= n
  {
    AreaLe(t + 1, |xs|, m.nthDown);
    AreaAdd(t, 1, m.nthDown);
    RanksAre(ids, k, t, |xs|);
    hide Area, Ranks;
  }

  lemma ManyAfter(m: Model, xs: seq<Input>, k: nat, ids: seq<nat>, ws: seq<Factor>, from: nat, len: nat, n: nat)
    requires Routed(m, ids) && from + len <= |xs| && |ids| == |ws| == Area(|xs|, k) && Area(|xs|, m.nthDown) <= n
    ensures Routed(m, Group(ids, k, from, len, |xs|))
    ensures Area(from, m.nthDown) + Area(len, m.nthDown) == Area(from + len, m.nthDown) <= n
  {
    hide Area;
    AreaLe(from + len, |xs|, m.nthDown);
    AreaAdd(from, len, m.nthDown);
    AreaLe(from + len, |xs|, k);
    AreaAdd(from, len, k);
  }

  lemma TokenKept(before: seq<Out>, after: seq<Out>, at: nat, m: Model, x: Input, es: seq<nat>, ws: seq<Factor>)
    requires Sized(m) && Routed(m, es) && 0 < |es| == |ws| && TokenWritten(before, at, m, x, es, ws) && |before| == |after|
    requires forall q :: at <= q < at + m.nthDown && q < |before| ==> after[q] == before[q]
    ensures TokenWritten(after, at, m, x, es, ws)
  {
    forall b: nat | b < m.nthDown ensures OutputIs(after, at + b, TokenBlock(m, x, es, ws, b)) {
      assert OutputIs(before, at + b, TokenBlock(m, x, es, ws, b));
    }
  }

  /** Writing the tokens [from, from + len) correctly and nothing else extends what is written. */
  lemma WrittenStep(before: seq<Out>, after: seq<Out>, m: Model, xs: seq<Input>, k: nat, ids: seq<nat>, ws: seq<Factor>, from: nat, len: nat)
    requires Sized(m) && Routed(m, ids) && 0 < k && |ids| == |ws| == Area(|xs|, k) && |before| == |after|
    requires AllWritten(before, m, xs, k, ids, ws, from)
    requires forall q :: 0 <= q < Area(from, m.nthDown) && q < |before| ==> after[q] == before[q]
    requires forall t: nat :: from <= t < from + len && t < |xs| ==>
      TokenWritten(after, Area(t, m.nthDown), m, xs[t], Ranks(ids, k, t, |xs|), Ranks(ws, k, t, |xs|))
    ensures AllWritten(after, m, xs, k, ids, ws, from + len)
  {
    hide TokenWritten, Ranks, Area;
    forall t: nat | t < from && t < |xs|
      ensures TokenWritten(after, Area(t, m.nthDown), m, xs[t], Ranks(ids, k, t, |xs|), Ranks(ws, k, t, |xs|))
    {
      AreaLe(t + 1, from, m.nthDown);
      AreaAdd(t, 1, m.nthDown);
      TokenKept(before, after, Area(t, m.nthDown), m, xs[t], Ranks(ids, k, t, |xs|), Ranks(ws, k, t, |xs|));
    }
  }

  lemma WrittenGroup(before: seq<Out>, after: seq<Out>, m: Model, xs: seq<Input>, k: nat, ids: seq<nat>, ws: seq<Factor>, from: nat, len: nat)
    requires Sized(m) && Routed(m, ids) && 0 < k && |ids| == |ws| == Area(|xs|, k) && |before| == |after| && from + len <= |xs|
    requires AllWritten(before, m, xs, k, ids, ws, from)
    requires forall q :: 0 <= q < Area(from, m.nthDown) && q < |before| ==> after[q] == before[q]
    requires Routed(m, Group(ids, k, from, len, |xs|))
    requires forall t :: 0 <= t < len ==>
      TokenWritten(after, Area(from, m.nthDown) + Area(t, m.nthDown), m, xs[from..from + len][t],
                   Ranks(Group(ids, k, from, len, |xs|), k, t, len), Ranks(Group(ws, k, from, len, |xs|), k, t, len))
    ensures AllWritten(after, m, xs, k, ids, ws, from + len)
  {
    hide TokenWritten, Ranks, AllWritten, Group;
    forall t: nat | from <= t < from + len && t < |xs|
      ensures TokenWritten(after, Area(t, m.nthDown), m, xs[t], Ranks(ids, k, t, |xs|), Ranks(ws, k, t, |xs|))
    {
      GroupRanks(ids, k, from, len, |xs|, t - from);
      GroupRanks(ws, k, from, len, |xs|, t - from);
      AreaAdd(from, t - from, m.nthDown);
    }
    WrittenStep(before, after, m, xs, k, ids, ws, from, len);
  }
}
