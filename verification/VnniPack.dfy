/** The VNNI packers of amx_gemm.cpp and the tile unpackers that invert them. */
module VnniPack {
  import opened Vnni

  type Bytes = seq<Byte>

  // ----- What a packed format stores, element by element.

  /** Element p of a q4_0 block: 16 bytes, low nibbles first. */
  function Quant40(qs: Bytes, p: nat): Byte
    requires |qs| == 16 && p < 32
  {
    if p < 16 then qs[p] & 0x0F else qs[p - 16] >> 4
  }

  /** Element p of the 4-bit plane of a q4_K or q5_K block: 32 bytes hold the low nibbles of one group of 32
      and the high nibbles of the next. */
  function Quant4K(qs: Bytes, p: nat): Byte
    requires |qs| == 128 && p < 256
  {
    if p % 64 < 32 then qs[p / 64 * 32 + p % 32] & 0x0F else qs[p / 64 * 32 + p % 32] >> 4
  }

  /** A quant from its low nibble and its high bits. */
  function Quantum(low: Byte, high: Byte): Byte {
    low + high * 16
  }

  function OneBit(x: Byte, c: Byte): Byte
    requires c < 8
  {
    (x >> c) & 1
  }

  function TwoBits(x: Byte, c: Byte): Byte
    requires c < 8
  {
    (x >> c) & 3
  }

  /** q5_K: bit g of qh[i] is the fifth bit of element i of group g. */
  function Quant5K(qs: Bytes, qh: Bytes, p: nat): Byte
    requires |qs| == 128 && |qh| == 32 && p < 256
  {
    Quantum(Quant4K(qs, p), OneBit(qh[p % 32], Count(p / 32)))
  }

  /** q6_K: 64 bytes of ql hold two quarters in their low and two in their high nibbles; bits 2q and 2q + 1 of
      qh[i] are the top bits of element i of quarter q. */
  function Quant6K(ql: Bytes, qh: Bytes, p: nat): Byte
    requires |ql| == 128 && |qh| == 64 && p < 256
  {
    var k, q, i := p / 128, p % 128 / 32, p % 32;
    var low := ql[64 * k + 32 * (q % 2) + i];
    Quantum(Nibble6(low, q), TwoBits(qh[32 * k + i], Count(2 * q)))
  }

  function Nibble6(b: Byte, q: nat): Byte {
    if q < 2 then b & 0x0F else b >> 4
  }

  // ----- Masked shifts do not leak bits between bytes.

  function Masked(d: Dword, m: Byte, right: Byte, left: Byte): Dword
    requires right < 8 && left < 8
  {
    Dword((d.b0 & m) >> right << left, (d.b1 & m) >> right << left, (d.b2 & m) >> right << left, (d.b3 & m) >> right << left)
  }

  lemma MaskedRight(d: Dword, m: Byte, c: Byte)
    requires c < 8 && m << (8 - c) == 0
    ensures Srl(And(d, m), c) == Masked(d, m, c, 0)
  {
  }

  lemma MaskedLeft(d: Dword, m: Byte, c: Byte)
    requires c < 8 && m >> (8 - c) == 0
    ensures Sll(And(d, m), c) == Masked(d, m, 0, c)
  {
  }

  /** The high nibble of every byte. */
  function HighHalf(d: Dword): Dword {
    Dword(d.b0 >> 4, d.b1 >> 4, d.b2 >> 4, d.b3 >> 4)
  }

  /** srli by 4 and a mask. */
  lemma HighNibbles(d: Dword)
    ensures And(Srl(d, 4), 0x0F) == HighHalf(d)
  {
  }

  // ----- Two dwords of nibbles share one packed dword.

  /** packNibbles. */
  function Pair(x: Dword, y: Dword): Dword {
    Or(x, Sll(y, 4))
  }

  lemma PairInverse(x: Dword, y: Dword)
    requires Below(x, 16) && Below(y, 16)
    ensures And(Pair(x, y), 0x0F) == x && And(Srl(Pair(x, y), 4), 0x0F) == y
  {
  }

  // ----- Loading.

  function Load(s: Bytes, from: nat, dwords: nat): (r: Reg)
    requires from + 4 * dwords <= |s|
    ensures |r| == dwords
    ensures forall l :: 0 <= l < dwords ==> r[l] == Dword(s[from + 4 * l], s[from + 4 * l + 1], s[from + 4 * l + 2], s[from + 4 * l + 3])
  {
    seq(dwords, l requires 0 <= l < dwords => Dword(s[from + 4 * l], s[from + 4 * l + 1], s[from + 4 * l + 2], s[from + 4 * l + 3]))
  }

  function AndAll(v: Reg, m: Byte): (r: Reg)
    ensures |r| == |v|
  {
    seq(|v|, l requires 0 <= l < |v| => And(v[l], m))
  }

  function SrlAll(v: Reg, c: Byte): (r: Reg)
    requires c < 8
    ensures |r| == |v|
  {
    seq(|v|, l requires 0 <= l < |v| => Srl(v[l], c))
  }

  function PairAll(v: Reg, w: Reg): (r: Reg)
    requires |v| == |w|
    ensures |r| == |v| && forall l :: 0 <= l < |v| ==> r[l] == Pair(v[l], w[l])
  {
    seq(|v|, l requires 0 <= l < |v| => Pair(v[l], w[l]))
  }

  function SubAll(v: Reg, c: Byte): (r: Reg)
    ensures |r| == |v|
  {
    seq(|v|, l requires 0 <= l < |v| => Sub(v[l], c))
  }

  // ----- q4_0: 16 rows of one block.

  /** Elements 4 * r to 4 * r + 3 of a block. */
  function Dword40(qs: Bytes, r: nat): Dword
    requires |qs| == 16 && r < 8
  {
    Dword(Quant40(qs, 4 * r), Quant40(qs, 4 * r + 1), Quant40(qs, 4 * r + 2), Quant40(qs, 4 * r + 3))
  }

  /** bytes_from_nibbles_32. */
  function Nibbles32(qs: Bytes): (v: Reg)
    requires |qs| == 16
    ensures |v| == 8
  {
    var tmp := Load(qs, 0, 4);
    AndAll(tmp + SrlAll(tmp, 4), 0x0F)
  }

  lemma Nibbles32Are(qs: Bytes, r: nat)
    requires |qs| == 16 && r < 8
    ensures Nibbles32(qs)[r] == Dword40(qs, r) && Below(Dword40(qs, r), 16)
  {
    hide Srl, And, HighHalf, Load, Below, Dword40;
    var d := Load(qs, 0, 4)[r % 4];
    HighNibbles(d);
    SmallNibbles(d);
    Dword40Is(qs, r);
  }

  lemma Dword40Is(qs: Bytes, r: nat)
    requires |qs| == 16 && r < 8
    ensures var d := Load(qs, 0, 4)[r % 4]; Dword40(qs, r) == if r < 4 then And(d, 0x0F) else HighHalf(d)
  {
    hide Load;
  }

  lemma SmallNibbles(d: Dword)
    ensures Below(And(d, 0x0F), 16) && Below(HighHalf(d), 16)
  {
  }

  ghost predicate Rows40(rows: seq<Bytes>) {
    |rows| == 16 && forall n :: 0 <= n < 16 ==> |rows[n]| == 16
  }

  /** Lane n of register j holds dwords 2 * j and 2 * j + 1 of row n. */
  ghost predicate Packed40(packed: seq<Reg>, rows: seq<Bytes>)
    requires Rows40(rows)
  {
    Grid(packed, 4, 16) && forall j, n :: 0 <= j < 4 && 0 <= n < 16 ==> PackedLane40(packed, rows, j, n)
  }

  ghost predicate PackedLane40(packed: seq<Reg>, rows: seq<Bytes>, j: nat, n: nat)
    requires Rows40(rows) && j < |packed| && j < 4 && n < |packed[j]| && n < 16
  {
    packed[j][n] == Pair(Dword40(rows[n], 2 * j), Dword40(rows[n], 2 * j + 1))
  }

  /** Half a tile: rows n0 to n0 + 7, transposed. */
  method Half40(rows: seq<Bytes>, n0: nat) returns (v2: seq<Reg>)
    requires Rows40(rows) && n0 + 8 <= 16
    ensures Grid(v2, 8, 8) && forall r, n :: 0 <= r < 8 && 0 <= n < 8 ==> v2[r][n] == Dword40(rows[n0 + n], r)
  {
    hide Nibbles32, Transpose8, Dword40;
    var v := [];
    for n := 0 to 8
      invariant |v| == n && forall m :: 0 <= m < n ==> v[m] == Nibbles32(rows[n0 + m])
    {
      v := v + [Nibbles32(rows[n0 + n])];
    }
    v2 := Transpose8(v);
    Transpose8IsTranspose(v);
    forall r, n | 0 <= r < 8 && 0 <= n < 8 ensures v2[r][n] == Dword40(rows[n0 + n], r) {
      Nibbles32Are(rows[n0 + n], r);
      assert v2[r][n] == v[n][r];
    }
  }

  /** pack_qs for q4_0. */
  method PackQ40(rows: seq<Bytes>) returns (packed: seq<Reg>)
    requires Rows40(rows)
    ensures Packed40(packed, rows)
  {
    hide Dword40, Pair;
    var low := Half40(rows, 0);
    var high := Half40(rows, 8);
    var tmp := seq(8, r requires 0 <= r < 8 => low[r] + high[r]);
    assert Grid(tmp, 8, 16);
    forall r, n | 0 <= r < 8 && 0 <= n < 16 ensures tmp[r][n] == Dword40(rows[n], r) {
      if n < 8 { assert tmp[r][n] == low[r][n]; } else { assert tmp[r][n] == high[r][n - 8]; }
    }
    packed := [];
    for j := 0 to 4
      invariant Grid(packed, j, 16) && forall i, n :: 0 <= i < j && 0 <= n < 16 ==> PackedLane40(packed, rows, i, n)
    {
      ghost var before := packed;
      packed := packed + [PairAll(tmp[2 * j], tmp[2 * j + 1])];
      forall i, n | 0 <= i < j + 1 && 0 <= n < 16 ensures PackedLane40(packed, rows, i, n) {
        assert if i < j then PackedLane40(before, rows, i, n) else tmp[2 * j][n] == Dword40(rows[n], 2 * j);
      }
    }
  }

  /** Tile row r: the low nibbles of register r / 2 for even r, the high ones for odd r, minus 8. */
  function TileRow40(packed: seq<Reg>, r: nat): (v: Reg)
    requires |packed| == 4 && r < 8
    ensures |v| == |packed[r / 2]|
  {
    SubAll(AndAll(if r % 2 == 0 then packed[r / 2] else SrlAll(packed[r / 2], 4), 0x0F), 8)
  }

  /** unpack_B for q4_0: two tile rows of 16 lanes from each packed register. */
  method UnpackQ40(packed: seq<Reg>) returns (tile: seq<Reg>)
    requires |packed| == 4
    ensures |tile| == 8 && forall r :: 0 <= r < 8 ==> tile[r] == TileRow40(packed, r)
  {
    tile := [];
    for j := 0 to 4
      invariant |tile| == 2 * j && forall r :: 0 <= r < 2 * j ==> tile[r] == TileRow40(packed, r)
    {
      tile := tile + [SubAll(AndAll(packed[j], 0x0F), 8), SubAll(AndAll(SrlAll(packed[j], 4), 0x0F), 8)];
    }
  }

  /** Unpacking a packed block gives, at tile row r, lane n, the quants 4 * r to 4 * r + 3 of row n, minus 8. */
  method RoundTripQ40(rows: seq<Bytes>) returns (tile: seq<Reg>)
    requires Rows40(rows)
    ensures Grid(tile, 8, 16)
    ensures forall r, n :: 0 <= r < 8 && 0 <= n < 16 ==> tile[r][n] == Sub(Dword40(rows[n], r), 8)
  {
    hide Dword40, Pair, And, Srl, Sub;
    var packed := PackQ40(rows);
    tile := UnpackQ40(packed);
    forall r, n | 0 <= r < 8 && 0 <= n < 16 ensures tile[r][n] == Sub(Dword40(rows[n], r), 8) {
      var j := r / 2;
      assert PackedLane40(packed, rows, j, n);
      Nibbles32Are(rows[n], 2 * j);
      Nibbles32Are(rows[n], 2 * j + 1);
      PairInverse(Dword40(rows[n], 2 * j), Dword40(rows[n], 2 * j + 1));
      assert r == 2 * j || r == 2 * j + 1;
    }
  }
}
