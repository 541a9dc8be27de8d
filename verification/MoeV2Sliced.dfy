/** MOE_V2::forward_many_nsliced: instances gathered per expert, rows sliced over jobs and shards, buffers
    that persist between calls. */
module MoeV2Sliced {
  import opened MoeV2
  import opened Tables

  /** Buffers of one expert.  They keep their contents from call to call, and resizing keeps old cells. */
  datatype ExpBuf = ExpBuf(aiList: seq<nat>, xg: seq<XRow>, both: seq<Num>, abf16: seq<Half>, down: seq<Num>)

  /** std::vector::resize. */
  function Resize<T>(s: seq<T>, n: nat, fill: T): (r: seq<T>)
    ensures |r| == n
  {
    if n <= |s| then s[..n] else s + seq(n - |s|, _ => fill)
  }

  // ----- Filling columns [c0, c1) of a row-major buffer.

  ghost predicate Kept<T>(buf: seq<T>, buf0: seq<T>, r: nat, c: nat, w: nat) {
    Flat(r, c, w) < |buf0| ==> Flat(r, c, w) < |buf| && buf[Flat(r, c, w)] == buf0[Flat(r, c, w)]
  }

  /** Columns [c0, c1) of the rows above m, and of row m up to column i, hold f; other columns are untouched. */
  ghost predicate Span2<T>(buf: seq<T>, buf0: seq<T>, rows: nat, w: nat, c0: nat, c1: nat, f: (nat, nat) --> T, m: nat, i: nat) {
    && |buf| == |buf0| == Area(rows, w) && c0 <= c1 <= w
    && (forall r: nat, c: nat :: r < rows && c0 <= c < c1 ==> f.requires(r, c))
    && (forall r: nat, c: nat :: r < rows && c0 <= c < c1 && (r < m || (r == m && c < i)) ==> Holds(buf, r, c, w, f(r, c)))
    && (forall r: nat, c: nat :: r < rows && c < w && !(c0 <= c < c1) ==> Kept(buf, buf0, r, c, w))
  }

  lemma Span2Step<T>(buf: seq<T>, buf0: seq<T>, rows: nat, w: nat, c0: nat, c1: nat, f: (nat, nat) --> T, m: nat, i: nat)
    requires Span2(buf, buf0, rows, w, c0, c1, f, m, i) && m < rows && c0 <= i < c1
    ensures Flat(m, i, w) < |buf|
    ensures Span2(buf[Flat(m, i, w) := f(m, i)], buf0, rows, w, c0, c1, f, m, i + 1)
  {
    FlatBound(m, i, w, rows);
    hide Flat, Area;
    var buf' := buf[Flat(m, i, w) := f(m, i)];
    forall r: nat, c: nat | r < rows && c0 <= c < c1 && (r < m || (r == m && c < i + 1)) ensures Holds(buf', r, c, w, f(r, c)) {
      FlatInjective(m, i, r, c, w);
      if (r, c) != (m, i) { assert Holds(buf, r, c, w, f(r, c)); } else { FlatBound(r, c, w, rows); }
    }
    forall r: nat, c: nat | r < rows && c < w && !(c0 <= c < c1) ensures Kept(buf', buf0, r, c, w) {
      FlatInjective(m, i, r, c, w);
      assert Kept(buf, buf0, r, c, w);
    }
  }

  /** The loops of a row kernel over all instances and the rows [c0, c1) of the weight slice. */
  method FillSpan<T>(buf0: seq<T>, rows: nat, w: nat, c0: nat, c1: nat, f: (nat, nat) --> T) returns (buf: seq<T>)
    requires |buf0| == Area(rows, w) && c0 <= c1 <= w && forall r: nat, c: nat :: r < rows && c0 <= c < c1 ==> f.requires(r, c)
    ensures |buf| == |buf0|
    ensures forall r: nat, c: nat :: r < rows && c0 <= c < c1 ==> Holds(buf, r, c, w, f(r, c))
    ensures forall r: nat, c: nat :: r < rows && c < w && !(c0 <= c < c1) ==> Kept(buf, buf0, r, c, w)
  {
    hide Flat, Area;
    buf := buf0;
    for m := 0 to rows
      invariant Span2(buf, buf0, rows, w, c0, c1, f, m, c0)
    {
      for i := c0 to c1
        invariant Span2(buf, buf0, rows, w, c0, c1, f, m, i)
      {
        Span2Step(buf, buf0, rows, w, c0, c1, f, m, i);
        buf := buf[Flat(m, i, w) := f(m, i)];
      }
    }
  }

  // ----- Slices of one expert's buffers.

  predicate Shape(net: Net, g: ExpBuf) {
    var me := |g.aiList|;
    |g.xg| == me && |g.both| == Area(me, 2 * net.I) && |g.abf16| == Area(me, net.I) && |g.down| == Area(me, net.H)
  }

  /** Column i of the hidden rows of all instances is what HidCell says. */
  ghost predicate HidOk(net: Net, g: ExpBuf, e: nat, i: nat)
    requires Sized(net) && e < net.E && i < net.I
  {
    forall m: nat :: m < |g.aiList| && m < |g.xg| ==> Holds(g.abf16, m, i, net.I, HidCell(net, g.xg[m], e, i))
  }

  ghost predicate DownOk(net: Net, g: ExpBuf, e: nat, h: nat)
    requires Sized(net) && e < net.E && h < net.H
  {
    forall m: nat :: m < |g.aiList| && m < |g.xg| ==> Holds(g.down, m, h, net.H, OutCell(net, g.xg[m], e, h))
  }

  /** The job's weight tensor has the gate row and the up row i of expert e. */
  ghost predicate HasGateUp(net: Net, w13: seq<WRow>, e: nat, i: nat) {
    SameRow(w13, net.w13, e, i, 2 * net.I) && SameRow(w13, net.w13, e, net.I + i, 2 * net.I)
  }

  /** Row c of the gate-and-up product of instance m. */
  function UpCell(net: Net, xg: seq<XRow>, w13: seq<WRow>, e: nat, m: nat, c: nat): Num
    requires m < |xg| && Flat(e, c, 2 * net.I) < |w13|
  {
    net.ops.dotUp(xg[m], w13[Flat(e, c, 2 * net.I)], e, c)
  }

  function ActCell(net: Net, both: seq<Num>, m: nat, i: nat): Half
    requires Flat(m, i, 2 * net.I) < |both| && Flat(m, net.I + i, 2 * net.I) < |both|
  {
    net.ops.round(net.ops.silu(both[Flat(m, i, 2 * net.I)], both[Flat(m, net.I + i, 2 * net.I)]))
  }

  /** The activation of gate and up cell i of instance m is the hidden cell. */
  ghost predicate Activates(net: Net, xg: seq<XRow>, both: seq<Num>, e: nat, m: nat, i: nat)
    requires Sized(net) && e < net.E
  {
    && i < net.I && m < |xg| && Flat(m, i, 2 * net.I) < |both| && Flat(m, net.I + i, 2 * net.I) < |both|
    && ActCell(net, both, m, i) == HidCell(net, xg[m], e, i)
  }

  /** The two products of a slice: gate rows [n0, n1), then the up rows, I further on. */
  method GateUpRows(net: Net, g: ExpBuf, e: nat, w13: seq<WRow>, n0: nat, n1: nat) returns (both: seq<Num>)
    requires Sized(net) && Shape(net, g) && e < net.E && n0 <= n1 <= net.I
    requires forall i: nat :: n0 <= i < n1 ==> HasGateUp(net, w13, e, i)
    ensures |both| == |g.both|
    ensures forall m: nat, i: nat :: m < |g.xg| && n0 <= i < n1 ==> Activates(net, g.xg, both, e, m, i)
  {
    hide Flat, Area, HidCell, UpCell, ActCell;
    var me, w := |g.aiList|, 2 * net.I;
    var row := (m: nat, c: nat) requires m < |g.xg| && Flat(e, c, 2 * net.I) < |w13| => UpCell(net, g.xg, w13, e, m, c);
    RowsPresent(net, w13, e, n0, n1);
    var gate := FillSpan(g.both, me, w, n0, n1, row);
    both := FillSpan(gate, me, w, net.I + n0, net.I + n1, row);
    forall m: nat, i: nat | m < |g.xg| && n0 <= i < n1 ensures Activates(net, g.xg, both, e, m, i) {
      assert HasGateUp(net, w13, e, i);
      assert Holds(gate, m, i, w, row(m, i)) && Kept(both, gate, m, i, w);
      assert Holds(both, m, net.I + i, w, row(m, net.I + i));
      ActIsHid(net, g.xg, w13, both, e, m, i);
    }
  }

  lemma RowsPresent(net: Net, w13: seq<WRow>, e: nat, n0: nat, n1: nat)
    requires forall i: nat :: n0 <= i < n1 ==> HasGateUp(net, w13, e, i)
    ensures forall c: nat :: n0 <= c < n1 || net.I + n0 <= c < net.I + n1 ==> Flat(e, c, 2 * net.I) < |w13|
  {
    hide Flat;
    forall c: nat | n0 <= c < n1 || net.I + n0 <= c < net.I + n1 ensures Flat(e, c, 2 * net.I) < |w13| {
      if n0 <= c < n1 { assert HasGateUp(net, w13, e, c); } else { assert HasGateUp(net, w13, e, c - net.I); }
    }
  }

  /** gate_up_slice_batched and the fused activation on rows [n0, n1) of expert e. */
  method GateUpSlice(net: Net, g: ExpBuf, e: nat, w13: seq<WRow>, n0: nat, n1: nat) returns (r: ExpBuf)
    requires Sized(net) && Shape(net, g) && e < net.E && n0 <= n1 <= net.I
    requires forall i: nat :: n0 <= i < n1 ==> HasGateUp(net, w13, e, i)
    ensures Shape(net, r) && r.aiList == g.aiList && r.xg == g.xg && r.down == g.down
    ensures forall i: nat :: i < net.I && (n0 <= i < n1 || HidOk(net, g, e, i)) ==> HidOk(net, r, e, i)
  {
    hide Flat, Area, HidCell, HidOk, ActCell, HasGateUp;
    var both := GateUpRows(net, g, e, w13, n0, n1);
    var cell := (m: nat, i: nat) requires Flat(m, i, 2 * net.I) < |both| && Flat(m, net.I + i, 2 * net.I) < |both| => ActCell(net, both, m, i);
    forall m: nat, i: nat | m < |g.aiList| && n0 <= i < n1 ensures cell.requires(m, i) {
      assert Activates(net, g.xg, both, e, m, i);
    }
    var abf16 := FillSpan(g.abf16, |g.aiList|, net.I, n0, n1, cell);
    r := g.(both := both, abf16 := abf16);
    forall i: nat | i < net.I && (n0 <= i < n1 || HidOk(net, g, e, i)) ensures HidOk(net, r, e, i) {
      if n0 <= i < n1 {
        forall m: nat | m < |g.xg| ensures Activates(net, g.xg, both, e, m, i) && Holds(abf16, m, i, net.I, ActCell(net, both, m, i)) {
          assert Activates(net, g.xg, both, e, m, i) && Holds(abf16, m, i, net.I, cell(m, i));
        }
        HidOkNew(net, r, both, e, i);
      } else {
        HidOkKept(net, g, r, e, i);
      }
    }
  }

  lemma ActIsHid(net: Net, xg: seq<XRow>, w13: seq<WRow>, both: seq<Num>, e: nat, m: nat, i: nat)
    requires Sized(net) && e < net.E && i < net.I && m < |xg| && HasGateUp(net, w13, e, i)
    requires Holds(both, m, i, 2 * net.I, UpCell(net, xg, w13, e, m, i))
    requires Holds(both, m, net.I + i, 2 * net.I, UpCell(net, xg, w13, e, m, net.I + i))
    ensures ActCell(net, both, m, i) == HidCell(net, xg[m], e, i)
  {
    hide Flat;
  }

  lemma HidOkNew(net: Net, g: ExpBuf, both: seq<Num>, e: nat, i: nat)
    requires Sized(net) && e < net.E && i < net.I && |g.xg| == |g.aiList|
    requires forall m: nat :: m < |g.xg| ==> Activates(net, g.xg, both, e, m, i) && Holds(g.abf16, m, i, net.I, ActCell(net, both, m, i))
    ensures HidOk(net, g, e, i)
  {
    hide Flat, HidCell, ActCell, Holds;
    forall m: nat | m < |g.aiList| && m < |g.xg| ensures Holds(g.abf16, m, i, net.I, HidCell(net, g.xg[m], e, i)) {
      assert Activates(net, g.xg, both, e, m, i);
    }
  }

  lemma HidOkKept(net: Net, g: ExpBuf, r: ExpBuf, e: nat, i: nat)
    requires Sized(net) && e < net.E && i < net.I && r.aiList == g.aiList && r.xg == g.xg && HidOk(net, g, e, i)
    requires forall m: nat :: m < |g.aiList| ==> Kept(r.abf16, g.abf16, m, i, net.I)
    ensures HidOk(net, r, e, i)
  {
    hide Flat, HidCell;
    forall m: nat | m < |r.aiList| && m < |r.xg| ensures Holds(r.abf16, m, i, net.I, HidCell(net, r.xg[m], e, i)) {
      assert Kept(r.abf16, g.abf16, m, i, net.I) && Holds(g.abf16, m, i, net.I, HidCell(net, g.xg[m], e, i));
    }
  }

  // ----- The down slice.

  ghost predicate HasDown(net: Net, w2: seq<WRow>, e: nat, h: nat) {
    SameRow(w2, net.w2, e, h, net.H)
  }

  function DownCell(net: Net, abf16: seq<Half>, w2: seq<WRow>, e: nat, m: nat, h: nat): Num
    requires Flat(m, 0, net.I) + net.I <= |abf16| && Flat(e, h, net.H) < |w2|
  {
    net.ops.dotDown(abf16[Flat(m, 0, net.I)..Flat(m, 0, net.I) + net.I], w2[Flat(e, h, net.H)], e, h)
  }

  ghost predicate Lowers(net: Net, g: ExpBuf, w2: seq<WRow>, e: nat, m: nat, h: nat)
    requires Sized(net) && e < net.E
  {
    && h < net.H && m < |g.xg| && Flat(m, 0, net.I) + net.I <= |g.abf16| && Flat(e, h, net.H) < |w2|
    && DownCell(net, g.abf16, w2, e, m, h) == OutCell(net, g.xg[m], e, h)
  }

  /** With all hidden columns in place a down cell is the output cell. */
  lemma DownIsOut(net: Net, g: ExpBuf, w2: seq<WRow>, e: nat, m: nat, h: nat)
    requires Sized(net) && Shape(net, g) && e < net.E && m < |g.aiList| && h < net.H && HasDown(net, w2, e, h)
    requires forall i: nat :: i < net.I ==> HidOk(net, g, e, i)
    ensures Lowers(net, g, w2, e, m, h)
  {
    AreaLe(m + 1, |g.aiList|, net.I);
    AreaAdd(m, 1, net.I);
    assert Flat(m, 0, net.I) == Area(m, net.I);
    hide Area, HidCell;
    var row, hid := g.abf16[Flat(m, 0, net.I)..Flat(m, 0, net.I) + net.I], Hid(net, g.xg[m], e);
    forall i: nat | i < net.I ensures row[i] == hid[i] {
      assert HidOk(net, g, e, i);
      assert Holds(g.abf16, m, i, net.I, HidCell(net, g.xg[m], e, i));
    }
    assert row == hid;
  }

  /** down_slice_batched on rows [n0, n1) of expert e. */
  method DownSlice(net: Net, g: ExpBuf, e: nat, w2: seq<WRow>, n0: nat, n1: nat) returns (r: ExpBuf)
    requires Sized(net) && Shape(net, g) && e < net.E && n0 <= n1 <= net.H
    requires forall h: nat :: n0 <= h < n1 ==> HasDown(net, w2, e, h)
    requires forall i: nat :: i < net.I ==> HidOk(net, g, e, i)
    ensures Shape(net, r) && r.aiList == g.aiList && r.xg == g.xg && r.abf16 == g.abf16
    ensures forall h: nat :: h < net.H && (n0 <= h < n1 || DownOk(net, g, e, h)) ==> DownOk(net, r, e, h)
  {
    hide Flat, Area, HidOk, OutCell, DownCell, HasDown, DownOk;
    forall m: nat, h: nat | m < |g.aiList| && n0 <= h < n1 ensures Lowers(net, g, w2, e, m, h) {
      DownIsOut(net, g, w2, e, m, h);
    }
    var cell := (m: nat, h: nat) requires Flat(m, 0, net.I) + net.I <= |g.abf16| && Flat(e, h, net.H) < |w2|
      => DownCell(net, g.abf16, w2, e, m, h);
    forall m: nat, h: nat | m < |g.aiList| && n0 <= h < n1 ensures cell.requires(m, h) {
      assert Lowers(net, g, w2, e, m, h);
    }
    var down := FillSpan(g.down, |g.aiList|, net.H, n0, n1, cell);
    r := g.(down := down);
    forall h: nat | h < net.H && (n0 <= h < n1 || DownOk(net, g, e, h)) ensures DownOk(net, r, e, h) {
      if n0 <= h < n1 {
        forall m: nat | m < |r.aiList| ensures Holds(r.down, m, h, net.H, OutCell(net, r.xg[m], e, h)) {
          assert Lowers(net, g, w2, e, m, h) && Holds(down, m, h, net.H, cell(m, h));
        }
        DownOkNew(net, r, e, h);
      } else {
        DownOkKept(net, g, r, e, h);
      }
    }
  }

  lemma DownOkNew(net: Net, g: ExpBuf, e: nat, h: nat)
    requires Sized(net) && e < net.E && h < net.H && |g.xg| == |g.aiList|
    requires forall m: nat :: m < |g.aiList| ==> Holds(g.down, m, h, net.H, OutCell(net, g.xg[m], e, h))
    ensures DownOk(net, g, e, h)
  {
    hide Flat, OutCell, Holds;
  }

  lemma DownOkKept(net: Net, g: ExpBuf, r: ExpBuf, e: nat, h: nat)
    requires Sized(net) && e < net.E && h < net.H && r.aiList == g.aiList && r.xg == g.xg && DownOk(net, g, e, h)
    requires forall m: nat :: m < |g.aiList| ==> Kept(r.down, g.down, m, h, net.H)
    ensures DownOk(net, r, e, h)
  {
    hide Flat, OutCell;
    forall m: nat | m < |r.aiList| && m < |r.xg| ensures Holds(r.down, m, h, net.H, OutCell(net, r.xg[m], e, h)) {
      assert Kept(r.down, g.down, m, h, net.H) && Holds(g.down, m, h, net.H, OutCell(net, g.xg[m], e, h));
    }
  }
}
