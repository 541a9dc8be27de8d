/** Packing 16 rows of a K-format block column into registers, and unpacking one group back into a tile. */
module VnniTiles {
  import opened Vnni
  import opened VnniPack
  import opened VnniPackK

  ghost predicate Rows(rows: seq<Block>) {
    |rows| == 16 && forall n :: 0 <= n < 16 ==> WellFormed(rows[n])
  }

  /** t[r][n] is dword base + r of row n. */
  ghost predicate Columns(t: seq<Reg>, rows: seq<Block>, base: nat, count: nat)
    requires Rows(rows)
  {
    && Grid(t, count, 16) && base + count <= 64
    && forall r, n :: 0 <= r < count && 0 <= n < 16 ==> t[r][n] == DwordOf(rows[n], base + r)
  }

  // ----- Loading and transposing.

  function Load45(b: Block, k: nat): (v: Reg)
    requires WellFormed(b) && !b.Q6K? && k < 4
    ensures |v| == 16
  {
    if b.Q4K? then Load4K(b.qs, k) else Load5K(b.qs, b.qh, k)
  }

  lemma Load45Is(b: Block, k: nat, l: nat)
    requires WellFormed(b) && !b.Q6K? && k < 4 && l < 16
    ensures Load45(b, k)[l] == DwordOf(b, 16 * k + l)
  {
    hide Load4K, Load5K, DwordOf, Plane4K, Below;
    if b.Q4K? {
      Load4KIs(b.qs, k, l / 8, l % 8);
      Plane4KIs(b.qs, k, l / 8, l % 8);
    } else {
      Load5KIs(b.qs, b.qh, k, l / 8, l % 8);
    }
  }

  lemma Plane4KIs(qs: Bytes, k: nat, h: nat, m: nat)
    requires |qs| == 128 && k < 4 && h < 2 && m < 8
    ensures Plane4K(qs, k, h, m) == DwordOf(Q4K(qs), 16 * k + 8 * h + m)
  {
    hide Quant4K;
  }

  method Columns45(rows: seq<Block>, k: nat) returns (t: seq<Reg>)
    requires Rows(rows) && k < 4 && forall n :: 0 <= n < 16 ==> !rows[n].Q6K?
    ensures Columns(t, rows, 16 * k, 16)
  {
    hide Load45, Transpose16, DwordOf;
    var v := [];
    for n := 0 to 16
      invariant Grid(v, n, 16) && forall m :: 0 <= m < n ==> v[m] == Load45(rows[m], k)
    {
      v := v + [Load45(rows[n], k)];
    }
    t := Transpose16(v);
    Transpose16IsTranspose(v);
    forall r, n | 0 <= r < 16 && 0 <= n < 16 ensures t[r][n] == DwordOf(rows[n], 16 * k + r) {
      Load45Is(rows[n], k, r);
      assert t[r][n] == v[n][r];
    }
  }

  /** Quarters 2 * h and 2 * h + 1 of the k-th 128 elements. */
  function Half6(b: Block, k: nat, h: nat): (v: Reg)
    requires WellFormed(b) && b.Q6K? && k < 2 && h < 2
    ensures |v| == 16
  {
    Load6K(b.ql, b.qh, k, 2 * h) + Load6K(b.ql, b.qh, k, 2 * h + 1)
  }

  lemma Half6Is(b: Block, k: nat, h: nat, l: nat)
    requires WellFormed(b) && b.Q6K? && k < 2 && h < 2 && l < 16
    ensures Half6(b, k, h)[l] == DwordOf(b, 32 * k + 16 * h + l)
  {
    hide Load6K, DwordOf, Below;
    Load6KIs(b.ql, b.qh, k, 2 * h + l / 8, l % 8);
  }

  method ColumnsHalf6(rows: seq<Block>, k: nat, h: nat) returns (t: seq<Reg>)
    requires Rows(rows) && k < 2 && h < 2 && forall n :: 0 <= n < 16 ==> rows[n].Q6K?
    ensures Columns(t, rows, 32 * k + 16 * h, 16)
  {
    hide Half6, Transpose16, DwordOf;
    var v := [];
    for n := 0 to 16
      invariant Grid(v, n, 16) && forall m :: 0 <= m < n ==> v[m] == Half6(rows[m], k, h)
    {
      v := v + [Half6(rows[n], k, h)];
    }
    t := Transpose16(v);
    Transpose16IsTranspose(v);
    forall r, n | 0 <= r < 16 && 0 <= n < 16 ensures t[r][n] == DwordOf(rows[n], 32 * k + 16 * h + r) {
      Half6Is(rows[n], k, h, r);
      assert t[r][n] == v[n][r];
    }
  }

  // ----- The nibble plane.

  /** Lane n of register j: the low nibbles of dwords 2 * j and 2 * j + 1 of row n. */
  ghost predicate LowLane(low: seq<Reg>, rows: seq<Block>, j: nat, n: nat)
    requires Rows(rows)
  {
    && j < 32 && j < |low| && n < 16 && n < |low[j]|
    && low[j][n] == Pair(And(DwordOf(rows[n], 2 * j), 0x0F), And(DwordOf(rows[n], 2 * j + 1), 0x0F))
  }

  ghost predicate LowPlane(low: seq<Reg>, rows: seq<Block>, count: nat)
    requires Rows(rows)
  {
    Grid(low, count, 16) && forall j: nat, n: nat :: j < count && n < 16 ==> LowLane(low, rows, j, n)
  }

  /** Packs the registers of t in pairs; q4_K has no high bits to mask off. */
  method PackLow(low0: seq<Reg>, t: seq<Reg>, ghost rows: seq<Block>, ghost base: nat, masked: bool) returns (low: seq<Reg>)
    requires Rows(rows) && Columns(t, rows, 2 * base, 16) && LowPlane(low0, rows, base)
    requires !masked ==> forall n :: 0 <= n < 16 ==> rows[n].Q4K?
    ensures LowPlane(low, rows, base + 8)
  {
    hide DwordOf, And, Pair;
    low := low0;
    for i := 0 to 8
      invariant LowPlane(low, rows, base + i)
    {
      ghost var before := low;
      var r0, r1 := t[2 * i], t[2 * i + 1];
      if masked {
        r0, r1 := AndAll(r0, 0x0F), AndAll(r1, 0x0F);
      }
      low := low + [PairAll(r0, r1)];
      forall j: nat, n: nat | j < base + i + 1 && n < 16 ensures LowLane(low, rows, j, n) {
        if j < base + i {
          assert LowLane(before, rows, j, n);
        } else {
          assert t[2 * i][n] == DwordOf(rows[n], 2 * j) && t[2 * i + 1][n] == DwordOf(rows[n], 2 * j + 1);
          if !masked {
            Nibble4K(rows[n], 2 * j);
            Nibble4K(rows[n], 2 * j + 1);
          }
        }
      }
    }
  }

  lemma Nibble4K(b: Block, r: nat)
    requires WellFormed(b) && b.Q4K? && r < 64
    ensures Below(DwordOf(b, r), 16) && And(DwordOf(b, r), 0x0F) == DwordOf(b, r)
  {
    hide DwordOf, Plane4K, Below, And;
    Load4KIs(b.qs, r / 16, r % 16 / 8, r % 8);
    Plane4KIs(b.qs, r / 16, r % 16 / 8, r % 8);
    assert 16 * (r / 16) + 8 * (r % 16 / 8) + r % 8 == r;
    MaskSmall(DwordOf(b, r));
  }

  lemma MaskSmall(d: Dword)
    ensures Below(d, 16) ==> And(d, 0x0F) == d
    ensures Below(And(d, 0x0F), 16)
  {
  }

  /** The nibbles of dword r of row n, as the tile unpackers read them. */
  function LowOf(low: seq<Reg>, r: nat, n: nat): Dword
    requires r / 2 < |low| && n < |low[r / 2]|
  {
    And(if r % 2 == 0 then low[r / 2][n] else Srl(low[r / 2][n], 4), 0x0F)
  }

  lemma LowInverse(low: seq<Reg>, rows: seq<Block>, r: nat, n: nat)
    requires Rows(rows) && LowPlane(low, rows, 32) && r < 64 && n < 16
    ensures LowOf(low, r, n) == And(DwordOf(rows[n], r), 0x0F)
  {
    hide DwordOf, And, Pair, Srl;
    var j := r / 2;
    assert LowLane(low, rows, j, n);
    MaskSmall(DwordOf(rows[n], 2 * j));
    MaskSmall(DwordOf(rows[n], 2 * j + 1));
    PairInverse(And(DwordOf(rows[n], 2 * j), 0x0F), And(DwordOf(rows[n], 2 * j + 1), 0x0F));
  }

  // ----- q4_K.

  method PackQs4K(rows: seq<Block>) returns (low: seq<Reg>)
    requires Rows(rows) && forall n :: 0 <= n < 16 ==> rows[n].Q4K?
    ensures LowPlane(low, rows, 32)
  {
    hide Columns, LowPlane;
    low := [];
    LowEmpty(rows);
    for k := 0 to 4
      invariant LowPlane(low, rows, 8 * k)
    {
      var t := Columns45(rows, k);
      low := PackLow(low, t, rows, 8 * k, false);
    }
  }

  lemma LowEmpty(rows: seq<Block>)
    requires Rows(rows)
    ensures LowPlane([], rows, 0)
  {
  }

  /** unpack_B for q4_K, group k. */
  method UnpackB4K(low: seq<Reg>, k: nat) returns (tile: seq<Reg>)
    requires Grid(low, 32, 16) && k < 8
    ensures Grid(tile, 8, 16) && forall r, n :: 0 <= r < 8 && 0 <= n < 16 ==> tile[r][n] == LowOf(low, 8 * k + r, n)
  {
    tile := [];
    for j := 0 to 4
      invariant Grid(tile, 2 * j, 16)
      invariant forall r, n :: 0 <= r < 2 * j && 0 <= n < 16 ==> tile[r][n] == LowOf(low, 8 * k + r, n)
    {
      var bytes := low[4 * k + j];
      ghost var before := tile;
      tile := tile + [AndAll(bytes, 0x0F), AndAll(SrlAll(bytes, 4), 0x0F)];
      forall r, n | 0 <= r < 2 * j + 2 && 0 <= n < 16 ensures tile[r][n] == LowOf(low, 8 * k + r, n) {
        if r < 2 * j { assert tile[r] == before[r]; }
      }
    }
  }

  method RoundTrip4K(rows: seq<Block>, k: nat) returns (tile: seq<Reg>)
    requires Rows(rows) && (forall n :: 0 <= n < 16 ==> rows[n].Q4K?) && k < 8
    ensures Grid(tile, 8, 16) && forall r, n :: 0 <= r < 8 && 0 <= n < 16 ==> tile[r][n] == DwordOf(rows[n], 8 * k + r)
  {
    hide DwordOf, And, LowOf;
    var low := PackQs4K(rows);
    tile := UnpackB4K(low, k);
    forall r, n | 0 <= r < 8 && 0 <= n < 16 ensures tile[r][n] == DwordOf(rows[n], 8 * k + r) {
      LowInverse(low, rows, 8 * k + r, n);
      Nibble4K(rows[n], 8 * k + r);
    }
  }

  // ----- q5_K.

  /** The eight dwords of group g of a row. */
  function GroupOf(b: Block, g: nat, size: nat): (x: seq<Dword>)
    requires WellFormed(b) && g * size + size <= 64
    ensures |x| == size
  {
    seq(size, i requires 0 <= i < size => DwordOf(b, g * size + i))
  }

  ghost predicate HighLane5(high: seq<Reg>, rows: seq<Block>, g: nat, n: nat)
    requires Rows(rows)
  {
    g < 8 && g < |high| && n < 16 && n < |high[g]| && high[g][n] == High5(GroupOf(rows[n], g, 8), 8)
  }

  ghost predicate HighPlane5(high: seq<Reg>, rows: seq<Block>, count: nat)
    requires Rows(rows)
  {
    Grid(high, count, 16) && forall g: nat, n: nat :: g < count && n < 16 ==> HighLane5(high, rows, g, n)
  }

  /** One register of high bits: hbits grows by one row of the group at a time. */
  method HighBits5(t: seq<Reg>, g: nat) returns (hbits: Reg)
    requires Grid(t, 16, 16) && g < 2
    ensures |hbits| == 16
    ensures forall n :: 0 <= n < 16 ==> hbits[n] == High5(seq(8, i requires 0 <= i < 8 => t[8 * g + i][n]), 8)
  {
    hide Term5;
    hbits := seq(16, _ => Dword(0, 0, 0, 0));
    for i := 0 to 8
      invariant |hbits| == 16
      invariant forall n :: 0 <= n < 16 ==> hbits[n] == High5(seq(8, j requires 0 <= j < 8 => t[8 * g + j][n]), i)
    {
      hbits := seq(16, n requires 0 <= n < 16 => Add(hbits[n], Term5(t[8 * g + i][n], i)));
    }
  }

  method PackQs5K(rows: seq<Block>) returns (low: seq<Reg>, high: seq<Reg>)
    requires Rows(rows) && forall n :: 0 <= n < 16 ==> rows[n].Q5K?
    ensures LowPlane(low, rows, 32) && HighPlane5(high, rows, 8)
  {
    hide Columns, LowPlane, HighPlane5;
    low, high := [], [];
    LowEmpty(rows);
    HighEmpty(rows);
    for k := 0 to 4
      invariant LowPlane(low, rows, 8 * k) && HighPlane5(high, rows, 2 * k)
    {
      var t := Columns45(rows, k);
      low := PackLow(low, t, rows, 8 * k, true);
      high := PackHigh5(high, t, rows, k);
    }
  }

  lemma HighEmpty(rows: seq<Block>)
    requires Rows(rows)
    ensures HighPlane5([], rows, 0) && HighPlane6([], rows, 0)
  {
  }

  method PackHigh5(high0: seq<Reg>, t: seq<Reg>, ghost rows: seq<Block>, ghost k: nat) returns (high: seq<Reg>)
    requires Rows(rows) && k < 4 && Columns(t, rows, 16 * k, 16) && HighPlane5(high0, rows, 2 * k)
    ensures HighPlane5(high, rows, 2 * k + 2)
  {
    hide DwordOf, High5;
    high := high0;
    for g := 0 to 2
      invariant HighPlane5(high, rows, 2 * k + g)
    {
      var hbits := HighBits5(t, g);
      ghost var before := high;
      high := high + [hbits];
      forall f: nat, n: nat | f < 2 * k + g + 1 && n < 16 ensures HighLane5(high, rows, f, n) {
        if f < 2 * k + g {
          assert HighLane5(before, rows, f, n);
        } else {
          assert seq(8, i requires 0 <= i < 8 => t[8 * g + i][n]) == GroupOf(rows[n], f, 8);
        }
      }
    }
  }

  /** unpack_B for q5_K, group k: nibbles plus the bit of the group's high register. */
  method UnpackB5K(low: seq<Reg>, high: seq<Reg>, k: nat) returns (tile: seq<Reg>)
    requires Grid(low, 32, 16) && Grid(high, 8, 16) && k < 8
    ensures Grid(tile, 8, 16)
    ensures forall r, n :: 0 <= r < 8 && 0 <= n < 16 ==> tile[r][n] == Add(LowOf(low, 8 * k + r, n), Up5(high[k][n], Count(r)))
  {
    hide Up5, Count;
    tile := [];
    for j := 0 to 4
      invariant Grid(tile, 2 * j, 16)
      invariant forall r, n :: 0 <= r < 2 * j && 0 <= n < 16 ==> tile[r][n] == Add(LowOf(low, 8 * k + r, n), Up5(high[k][n], Count(r)))
    {
      var bytes, hbits := low[4 * k + j], high[k];
      var r0, r1 := AndAll(bytes, 0x0F), AndAll(SrlAll(bytes, 4), 0x0F);
      ghost var before := tile;
      tile := tile + [seq(16, n requires 0 <= n < 16 => Add(r0[n], Up5(hbits[n], Count(2 * j)))),
                      seq(16, n requires 0 <= n < 16 => Add(r1[n], Up5(hbits[n], Count(2 * j + 1))))];
      forall r, n | 0 <= r < 2 * j + 2 && 0 <= n < 16 ensures tile[r][n] == Add(LowOf(low, 8 * k + r, n), Up5(high[k][n], Count(r))) {
        if r < 2 * j { assert tile[r] == before[r]; }
      }
    }
  }

  lemma Small5K(b: Block, r: nat)
    requires WellFormed(b) && b.Q5K? && r < 64
    ensures Below(DwordOf(b, r), 32)
  {
    hide DwordOf, Below, Load5K;
    Load5KIs(b.qs, b.qh, r / 16, r % 16 / 8, r % 8);
    assert 16 * (r / 16) + 8 * (r % 16 / 8) + r % 8 == r;
  }

  method RoundTrip5K(rows: seq<Block>, k: nat) returns (tile: seq<Reg>)
    requires Rows(rows) && (forall n :: 0 <= n < 16 ==> rows[n].Q5K?) && k < 8
    ensures Grid(tile, 8, 16) && forall r, n :: 0 <= r < 8 && 0 <= n < 16 ==> tile[r][n] == DwordOf(rows[n], 8 * k + r)
  {
    hide DwordOf, And, LowOf, Up5, High5, Add, LowPlane, Below, Count;
    var low, high := PackQs5K(rows);
    PlanesGrid(low, high, rows);
    tile := UnpackB5K(low, high, k);
    forall r, n | 0 <= r < 8 && 0 <= n < 16 ensures tile[r][n] == DwordOf(rows[n], 8 * k + r) {
      LowInverse(low, rows, 8 * k + r, n);
      Small5K(rows[n], 8 * k + r);
      assert HighLane5(high, rows, k, n);
      High5Inverse(GroupOf(rows[n], k, 8), r);
    }
  }

  lemma PlanesGrid(low: seq<Reg>, high: seq<Reg>, rows: seq<Block>)
    requires Rows(rows) && LowPlane(low, rows, 32)
    ensures Grid(low, 32, 16)
  {
  }

  // ----- q6_K.

  ghost predicate HighLane6(high: seq<Reg>, rows: seq<Block>, g: nat, n: nat)
    requires Rows(rows)
  {
    g < 16 && g < |high| && n < 16 && n < |high[g]| && high[g][n] == High6(GroupOf(rows[n], g, 4))
  }

  ghost predicate HighPlane6(high: seq<Reg>, rows: seq<Block>, count: nat)
    requires Rows(rows)
  {
    Grid(high, count, 16) && forall g: nat, n: nat :: g < count && n < 16 ==> HighLane6(high, rows, g, n)
  }

  method PackHigh6(high0: seq<Reg>, t: seq<Reg>, ghost rows: seq<Block>, ghost base: nat) returns (high: seq<Reg>)
    requires Rows(rows) && Columns(t, rows, 4 * base, 16) && HighPlane6(high0, rows, base)
    ensures HighPlane6(high, rows, base + 4)
  {
    hide DwordOf, High6;
    high := high0;
    for g := 0 to 4
      invariant HighPlane6(high, rows, base + g)
    {
      var hbits := seq(16, n requires 0 <= n < 16 => High6([t[4 * g][n], t[4 * g + 1][n], t[4 * g + 2][n], t[4 * g + 3][n]]));
      ghost var before := high;
      high := high + [hbits];
      forall f: nat, n: nat | f < base + g + 1 && n < 16 ensures HighLane6(high, rows, f, n) {
        if f < base + g {
          assert HighLane6(before, rows, f, n);
        } else {
          assert [t[4 * g][n], t[4 * g + 1][n], t[4 * g + 2][n], t[4 * g + 3][n]] == GroupOf(rows[n], f, 4);
        }
      }
    }
  }

  method PackQs6K(rows: seq<Block>) returns (low: seq<Reg>, high: seq<Reg>)
    requires Rows(rows) && forall n :: 0 <= n < 16 ==> rows[n].Q6K?
    ensures LowPlane(low, rows, 32) && HighPlane6(high, rows, 16)
  {
    hide Columns, LowPlane, HighPlane6;
    low, high := [], [];
    LowEmpty(rows);
    HighEmpty(rows);
    for k := 0 to 2
      invariant LowPlane(low, rows, 16 * k) && HighPlane6(high, rows, 8 * k)
    {
      var top := ColumnsHalf6(rows, k, 0);
      var bottom := ColumnsHalf6(rows, k, 1);
      low := PackLow(low, top, rows, 16 * k, true);
      low := PackLow(low, bottom, rows, 16 * k + 8, true);
      high := PackHigh6(high, top, rows, 8 * k);
      high := PackHigh6(high, bottom, rows, 8 * k + 4);
    }
  }

  /** unpack_B for q6_K: 4 rows per group of 16, with the two high bits, minus 32. */
  method UnpackB6K(low: seq<Reg>, high: seq<Reg>, k: nat) returns (tile: seq<Reg>)
    requires Grid(low, 32, 16) && Grid(high, 16, 16) && k < 16
    ensures Grid(tile, 4, 16)
    ensures forall r, n :: 0 <= r < 4 && 0 <= n < 16 ==> tile[r][n] == Sub(Add(LowOf(low, 4 * k + r, n), Up6(high[k][n], r)), 32)
  {
    hide Up6;
    tile := [];
    for j := 0 to 2
      invariant Grid(tile, 2 * j, 16)
      invariant forall r, n :: 0 <= r < 2 * j && 0 <= n < 16 ==> tile[r][n] == Sub(Add(LowOf(low, 4 * k + r, n), Up6(high[k][n], r)), 32)
    {
      var bytes, hbits := low[2 * k + j], high[k];
      var r0, r1 := AndAll(bytes, 0x0F), AndAll(SrlAll(bytes, 4), 0x0F);
      ghost var before := tile;
      tile := tile + [seq(16, n requires 0 <= n < 16 => Sub(Add(r0[n], Up6(hbits[n], 2 * j)), 32)),
                      seq(16, n requires 0 <= n < 16 => Sub(Add(r1[n], Up6(hbits[n], 2 * j + 1)), 32))];
      forall r, n | 0 <= r < 2 * j + 2 && 0 <= n < 16
        ensures tile[r][n] == Sub(Add(LowOf(low, 4 * k + r, n), Up6(high[k][n], r)), 32)
      {
        if r < 2 * j { assert tile[r] == before[r]; }
      }
    }
  }

  lemma Small6K(b: Block, r: nat)
    requires WellFormed(b) && b.Q6K? && r < 64
    ensures Below(DwordOf(b, r), 64)
  {
    hide DwordOf, Below, Load6K;
    Load6KIs(b.ql, b.qh, r / 32, r % 32 / 8, r % 8);
    assert 32 * (r / 32) + 8 * (r % 32 / 8) + r % 8 == r;
  }

  method RoundTrip6K(rows: seq<Block>, k: nat) returns (tile: seq<Reg>)
    requires Rows(rows) && (forall n :: 0 <= n < 16 ==> rows[n].Q6K?) && k < 16
    ensures Grid(tile, 4, 16) && forall r, n :: 0 <= r < 4 && 0 <= n < 16 ==> tile[r][n] == Sub(DwordOf(rows[n], 4 * k + r), 32)
  {
    hide DwordOf, And, LowOf, Up6, High6, Add, Sub, LowPlane, Below;
    var low, high := PackQs6K(rows);
    PlanesGrid(low, high, rows);
    tile := UnpackB6K(low, high, k);
    forall r, n | 0 <= r < 4 && 0 <= n < 16 ensures tile[r][n] == Sub(DwordOf(rows[n], 4 * k + r), 32) {
      LowInverse(low, rows, 4 * k + r, n);
      assert HighLane6(high, rows, k, n);
      forall i | 0 <= i < 4 ensures Below(GroupOf(rows[n], k, 4)[i], 64) { Small6K(rows[n], 4 * k + i); }
      High6Inverse(GroupOf(rows[n], k, 4), r);
    }
  }
}
