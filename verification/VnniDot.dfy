/** The M = 1 kernels over one block of packed q8_0 and q4_0 weights: unsigned-by-signed dot products with a compensation
    term, in wrapping 32-bit arithmetic. */
module VnniDot {
  import opened Vnni
  import opened VnniPack

  function S(b: Byte): int {
    if b < 0x80 then b as int else b as int - 256
  }

  function U(b: Byte): int {
    b as int
  }

  /** A value stored in a 32-bit lane. */
  function Wrap(x: int): int {
    (x + 0x8000_0000) % 0x1_0000_0000 - 0x8000_0000
  }

  lemma WrapFits(x: int)
    requires -0x8000_0000 <= x < 0x8000_0000
    ensures Wrap(x) == x
  {
  }

  /** dpbusd_epi32 on one lane. */
  function Dpbusd(acc: int, u: Dword, s: Dword): int {
    Wrap(acc + U(u.b0) * S(s.b0) + U(u.b1) * S(s.b1) + U(u.b2) * S(s.b2) + U(u.b3) * S(s.b3))
  }

  // ----- Exact sums.

  function Dot(a: Bytes, b: Bytes, n: nat): int
    requires n <= |a| && n <= |b|
  {
    if n == 0 then 0 else Dot(a, b, n - 1) + S(a[n - 1]) * S(b[n - 1])
  }

  function SumS(b: Bytes, n: nat): int
    requires n <= |b|
  {
    if n == 0 then 0 else SumS(b, n - 1) + S(b[n - 1])
  }

  lemma SRange(b: Byte)
    ensures -128 <= S(b) <= 127 && 0 <= U(b) <= 255
  {
  }

  lemma NonNegative(x: int, y: int)
    requires x >= 0 && y >= 0
    ensures x * y >= 0
  {
  }

  lemma ProductRange(x: int, y: int)
    requires -128 <= x <= 127 && -128 <= y <= 127
    ensures -16384 <= x * y <= 16384
  {
    NonNegative(128 - x, 128 + y);
    NonNegative(128 + x, 128 - y);
    NonNegative(128 - x, 128 - y);
    NonNegative(128 + x, 128 + y);
    assert (128 - x) * (128 + y) + (128 + x) * (128 - y) == 32768 - 2 * (x * y);
    assert (128 - x) * (128 - y) + (128 + x) * (128 + y) == 32768 + 2 * (x * y);
  }

  lemma {:induction false} DotRange(a: Bytes, b: Bytes, n: nat)
    requires n <= |a| && n <= |b|
    ensures -16384 * n <= Dot(a, b, n) <= 16384 * n
  {
    hide S;
    if n > 0 {
      DotRange(a, b, n - 1);
      SRange(a[n - 1]);
      SRange(b[n - 1]);
      ProductRange(S(a[n - 1]), S(b[n - 1]));
    }
  }

  lemma {:induction false} SumRange(b: Bytes, n: nat)
    requires n <= |b|
    ensures -128 * n <= SumS(b, n) <= 128 * n
  {
    hide S;
    if n > 0 {
      SumRange(b, n - 1);
      SRange(b[n - 1]);
    }
  }

  // ----- q8_0: (a + 128) * b - 128 * b.

  /** add_epi8 with 0x80 turns a signed byte into that byte plus 128, unsigned. */
  lemma Offset128(a: Byte)
    ensures U(Plus(a, 0x80)) == S(a) + 128
  {
  }

  function Offset(d: Dword): Dword {
    Dword(Plus(d.b0, 0x80), Plus(d.b1, 0x80), Plus(d.b2, 0x80), Plus(d.b3, 0x80))
  }

  const OFF: Dword := Dword(0x80, 0x80, 0x80, 0x80)

  lemma CompStep(b: Bytes, k: nat)
    requires |b| == 32 && k < 8
    ensures Dpbusd(128 * SumS(b, 4 * k), OFF, Load(b, 0, 8)[k]) == 128 * SumS(b, 4 * k + 4)
  {
    hide S;
    assert U(0x80) == 128;
    SumRange(b, 4 * k + 4);
    WrapFits(128 * SumS(b, 4 * k + 4));
    assert SumS(b, 4 * k + 2) == SumS(b, 4 * k) + S(b[4 * k]) + S(b[4 * k + 1]);
  }

  lemma Distribute(x: int, y: int)
    ensures (x + 128) * y == x * y + 128 * y
  {
  }

  lemma DotFour(a: Bytes, b: Bytes, n: nat)
    requires n + 4 <= |a| && n + 4 <= |b|
    ensures Dot(a, b, n + 4) == Dot(a, b, n) + S(a[n]) * S(b[n]) + S(a[n + 1]) * S(b[n + 1]) + S(a[n + 2]) * S(b[n + 2]) + S(a[n + 3]) * S(b[n + 3])
    ensures SumS(b, n + 4) == SumS(b, n) + S(b[n]) + S(b[n + 1]) + S(b[n + 2]) + S(b[n + 3])
  {
    hide S;
    assert Dot(a, b, n + 2) == Dot(a, b, n) + S(a[n]) * S(b[n]) + S(a[n + 1]) * S(b[n + 1]);
    assert SumS(b, n + 2) == SumS(b, n) + S(b[n]) + S(b[n + 1]);
  }

  lemma VsumStep(a: Bytes, b: Bytes, k: nat)
    requires |a| == |b| == 32 && k < 8
    ensures Dpbusd(Dot(a, b, 4 * k) + 128 * SumS(b, 4 * k), Offset(Load(a, 0, 8)[k]), Load(b, 0, 8)[k])
         == Dot(a, b, 4 * k + 4) + 128 * SumS(b, 4 * k + 4)
  {
    hide S, U, Plus, Wrap, Dot, SumS;
    var n := 4 * k;
    DotFour(a, b, n);
    Offset128(a[n]);
    Offset128(a[n + 1]);
    Offset128(a[n + 2]);
    Offset128(a[n + 3]);
    Distribute(S(a[n]), S(b[n]));
    Distribute(S(a[n + 1]), S(b[n + 1]));
    Distribute(S(a[n + 2]), S(b[n + 2]));
    Distribute(S(a[n + 3]), S(b[n + 3]));
    DotRange(a, b, n + 4);
    SumRange(b, n + 4);
    WrapFits(Dot(a, b, n + 4) + 128 * SumS(b, n + 4));
  }

  /** vsum - vcomp of one block: exactly the signed dot product. */
  lemma BlockExact8(a: Bytes, b: Bytes)
    requires |a| == |b| == 32
    ensures Wrap(Dot(a, b, 32) + 128 * SumS(b, 32) - 128 * SumS(b, 32)) == Dot(a, b, 32)
  {
    DotRange(a, b, 32);
    WrapFits(Dot(a, b, 32));
  }

  // ----- Packing q8_0.

  /** A q8_0 block: 32 signed quants and a scale. */
  datatype Block = Block(qs: Bytes, d: real)

  /** One packed tile: 8 registers of quants, the scales and the compensation of its 16 rows. */
  datatype Tile = Tile(quants: seq<Reg>, d: seq<real>, comp: seq<int>)

  predicate Good8(b: seq<Block>) {
    forall i :: 0 <= i < |b| ==> |b[i].qs| == 32
  }

  ghost predicate Tile8Of(t: Tile, rows: seq<Block>)
    requires |rows| == 16 && Good8(rows)
  {
    && Grid(t.quants, 8, 16) && |t.d| == |t.comp| == 16
    && (forall r, n :: 0 <= r < 8 && 0 <= n < 16 ==> t.quants[r][n] == Load(rows[n].qs, 0, 8)[r])
    && (forall n :: 0 <= n < 16 ==> t.d[n] == rows[n].d && t.comp[n] == 128 * SumS(rows[n].qs, 32))
  }

  /** Eight rows, transposed. */
  method Half8(rows: seq<Block>, n0: nat) returns (v2: seq<Reg>)
    requires |rows| == 16 && Good8(rows) && n0 + 8 <= 16
    ensures Grid(v2, 8, 8) && forall r, n :: 0 <= r < 8 && 0 <= n < 8 ==> v2[r][n] == Load(rows[n0 + n].qs, 0, 8)[r]
  {
    hide Transpose8, Load;
    var v := [];
    for n := 0 to 8
      invariant Grid(v, n, 8) && forall m :: 0 <= m < n ==> v[m] == Load(rows[n0 + m].qs, 0, 8)
    {
      v := v + [Load(rows[n0 + n].qs, 0, 8)];
    }
    v2 := Transpose8(v);
    Transpose8IsTranspose(v);
    forall r, n | 0 <= r < 8 && 0 <= n < 8 ensures v2[r][n] == Load(rows[n0 + n].qs, 0, 8)[r] {
      assert v2[r][n] == v[n][r];
    }
  }

  /** pack_B for q8_0, with s8s8_compensation. */
  method PackB8(rows: seq<Block>) returns (t: Tile)
    requires |rows| == 16 && Good8(rows)
    ensures Tile8Of(t, rows)
  {
    hide Load, Dpbusd, SumS;
    var low := Half8(rows, 0);
    var high := Half8(rows, 8);
    var quants := seq(8, r requires 0 <= r < 8 => low[r] + high[r]);
    forall r, n | 0 <= r < 8 && 0 <= n < 16 ensures quants[r][n] == Load(rows[n].qs, 0, 8)[r] {
      if n < 8 { assert quants[r][n] == low[r][n]; } else { assert quants[r][n] == high[r][n - 8]; }
    }
    var comp := seq(16, _ => 0);
    forall n | 0 <= n < 16 ensures comp[n] == 128 * SumS(rows[n].qs, 0) { SumNone(rows[n].qs); }
    for k := 0 to 8
      invariant |comp| == 16 && forall n :: 0 <= n < 16 ==> comp[n] == 128 * SumS(rows[n].qs, 4 * k)
    {
      forall n | 0 <= n < 16 ensures Dpbusd(comp[n], OFF, quants[k][n]) == 128 * SumS(rows[n].qs, 4 * k + 4) {
        CompStep(rows[n].qs, k);
      }
      comp := seq(16, n requires 0 <= n < 16 => Dpbusd(comp[n], OFF, quants[k][n]));
    }
    t := Tile(quants, seq(16, n requires 0 <= n < 16 => rows[n].d), comp);
  }

  lemma SumNone(b: Bytes)
    ensures SumS(b, 0) == 0
  {
  }

  /** One block of one tile: vsum - vcomp in each lane. */
  method BlockSums8(a: Bytes, t: Tile, ghost rows: seq<Block>) returns (vsum: seq<int>)
    requires |a| == 32 && |rows| == 16 && Good8(rows) && Tile8Of(t, rows)
    ensures |vsum| == 16 && forall n :: 0 <= n < 16 ==> vsum[n] == Dot(a, rows[n].qs, 32)
  {
    hide Load, Dpbusd, SumS, Dot, Offset, Wrap;
    var va := Load(a, 0, 8);
    vsum := seq(16, _ => 0);
    forall n | 0 <= n < 16 ensures vsum[n] == Dot(a, rows[n].qs, 0) + 128 * SumS(rows[n].qs, 0) { SumNone(rows[n].qs); DotNone(a, rows[n].qs); }
    for k := 0 to 8
      invariant |vsum| == 16 && forall n :: 0 <= n < 16 ==> vsum[n] == Dot(a, rows[n].qs, 4 * k) + 128 * SumS(rows[n].qs, 4 * k)
    {
      forall n | 0 <= n < 16
        ensures Dpbusd(vsum[n], Offset(va[k]), t.quants[k][n]) == Dot(a, rows[n].qs, 4 * k + 4) + 128 * SumS(rows[n].qs, 4 * k + 4)
      {
        VsumStep(a, rows[n].qs, k);
      }
      vsum := seq(16, n requires 0 <= n < 16 => Dpbusd(vsum[n], Offset(va[k]), t.quants[k][n]));
    }
    forall n | 0 <= n < 16 ensures Wrap(vsum[n] - t.comp[n]) == Dot(a, rows[n].qs, 32) { BlockExact8(a, rows[n].qs); }
    vsum := seq(16, n requires 0 <= n < 16 => Wrap(vsum[n] - t.comp[n]));
  }

  lemma DotNone(a: Bytes, b: Bytes)
    ensures Dot(a, b, 0) == 0
  {
  }

  // ----- q4_0: b * a - 8 * a.

  /** Sum of a[p] * b[p] with the stored, unsigned nibbles. */
  function DotNibbles(a: Bytes, qs: Bytes, n: nat): int
    requires |qs| == 16 && n <= 32 && n <= |a|
  {
    if n == 0 then 0 else DotNibbles(a, qs, n - 1) + S(a[n - 1]) * U(Quant40(qs, n - 1))
  }

  /** Sum of a[p] * (b[p] - 8). */
  function Dot4(a: Bytes, qs: Bytes, n: nat): int
    requires |qs| == 16 && n <= 32 && n <= |a|
  {
    if n == 0 then 0 else Dot4(a, qs, n - 1) + S(a[n - 1]) * (U(Quant40(qs, n - 1)) - 8)
  }

  lemma NibbleRange(qs: Bytes, p: nat)
    requires |qs| == 16 && p < 32
    ensures 0 <= U(Quant40(qs, p)) <= 15
  {
    Nibbles32Are(qs, p / 4);
    assert p == 4 * (p / 4) + p % 4;
    assert Quant40(qs, p) < 16;
  }

  lemma NibbleProduct(x: int, y: int)
    requires -128 <= x <= 127 && 0 <= y <= 15
    ensures -1920 <= x * y <= 1905
  {
    NonNegative(x + 128, y);
    NonNegative(127 - x, y);
    assert (x + 128) * y == x * y + 128 * y && (127 - x) * y == 127 * y - x * y;
  }

  lemma {:induction false} Dot4Is(a: Bytes, qs: Bytes, n: nat)
    requires |qs| == 16 && n <= 32 && n <= |a|
    ensures Dot4(a, qs, n) == DotNibbles(a, qs, n) - 8 * SumS(a, n)
    ensures -1920 * n <= DotNibbles(a, qs, n) <= 1905 * n
  {
    hide S, U, Quant40;
    if n > 0 {
      Dot4Is(a, qs, n - 1);
      SRange(a[n - 1]);
      NibbleRange(qs, n - 1);
      NibbleProduct(S(a[n - 1]), U(Quant40(qs, n - 1)));
      assert S(a[n - 1]) * (U(Quant40(qs, n - 1)) - 8) == S(a[n - 1]) * U(Quant40(qs, n - 1)) - 8 * S(a[n - 1]);
    }
  }

  lemma NibblesFour(a: Bytes, qs: Bytes, n: nat)
    requires |qs| == 16 && n + 4 <= 32 && n + 4 <= |a|
    ensures DotNibbles(a, qs, n + 4) == DotNibbles(a, qs, n) + U(Quant40(qs, n)) * S(a[n]) + U(Quant40(qs, n + 1)) * S(a[n + 1])
      + U(Quant40(qs, n + 2)) * S(a[n + 2]) + U(Quant40(qs, n + 3)) * S(a[n + 3])
  {
    hide S, U, Quant40;
    assert DotNibbles(a, qs, n + 2) == DotNibbles(a, qs, n) + S(a[n]) * U(Quant40(qs, n)) + S(a[n + 1]) * U(Quant40(qs, n + 1));
  }

  /** One dpbusd of nibble dword k. */
  lemma NibbleStep(a: Bytes, qs: Bytes, k: nat)
    requires |a| == 32 && |qs| == 16 && k < 8
    ensures Dpbusd(DotNibbles(a, qs, 4 * k), Dword40(qs, k), Load(a, 0, 8)[k]) == DotNibbles(a, qs, 4 * k + 4)
  {
    hide S, U, Wrap, DotNibbles, Quant40;
    NibblesFour(a, qs, 4 * k);
    Dot4Is(a, qs, 4 * k + 4);
    WrapFits(DotNibbles(a, qs, 4 * k + 4));
  }

  const EIGHT: Dword := Dword(8, 8, 8, 8)

  lemma EightStep(a: Bytes, k: nat)
    requires |a| == 32 && k < 8
    ensures Dpbusd(8 * SumS(a, 4 * k), EIGHT, Load(a, 0, 8)[k]) == 8 * SumS(a, 4 * k + 4)
  {
    hide S;
    assert U(8) == 8;
    SumRange(a, 4 * k + 4);
    WrapFits(8 * SumS(a, 4 * k + 4));
    assert SumS(a, 4 * k + 2) == SumS(a, 4 * k) + S(a[4 * k]) + S(a[4 * k + 1]);
  }

  /** One block of one q4_0 tile: vsum - vcomp in each lane is the dot product with the quants minus 8. */
  method BlockSums4(a: Bytes, packed: seq<Reg>, ghost rows: seq<Bytes>) returns (vsum: seq<int>)
    requires |a| == 32 && Rows40(rows) && Packed40(packed, rows)
    ensures |vsum| == 16 && forall n :: 0 <= n < 16 ==> vsum[n] == Dot4(a, rows[n], 32)
  {
    hide Load, Dpbusd, SumS, Dot4, DotNibbles, Dword40, Wrap, Below, Pair, And, Srl;
    var va := Load(a, 0, 8);
    var vcomp := 0;
    SumNone(a);
    for k := 0 to 8
      invariant vcomp == 8 * SumS(a, 4 * k)
    {
      EightStep(a, k);
      vcomp := Dpbusd(vcomp, EIGHT, va[k]);
    }
    vsum := seq(16, _ => 0);
    forall n | 0 <= n < 16 ensures vsum[n] == DotNibbles(a, rows[n], 0) { NibblesNone(a, rows[n]); }
    for j := 0 to 4
      invariant |vsum| == 16 && forall n :: 0 <= n < 16 ==> vsum[n] == DotNibbles(a, rows[n], 8 * j)
    {
      var bytes := packed[j];
      forall n | 0 <= n < 16
        ensures Dpbusd(Dpbusd(vsum[n], And(bytes[n], 0x0F), va[2 * j]), And(Srl(bytes[n], 4), 0x0F), va[2 * j + 1])
             == DotNibbles(a, rows[n], 8 * j + 8)
      {
        assert PackedLane40(packed, rows, j, n);
        Nibbles32Are(rows[n], 2 * j);
        Nibbles32Are(rows[n], 2 * j + 1);
        PairInverse(Dword40(rows[n], 2 * j), Dword40(rows[n], 2 * j + 1));
        NibbleStep(a, rows[n], 2 * j);
        NibbleStep(a, rows[n], 2 * j + 1);
      }
      vsum := seq(16, n requires 0 <= n < 16 =>
        Dpbusd(Dpbusd(vsum[n], And(bytes[n], 0x0F), va[2 * j]), And(Srl(bytes[n], 4), 0x0F), va[2 * j + 1]));
    }
    forall n | 0 <= n < 16 ensures Wrap(vsum[n] - vcomp) == Dot4(a, rows[n], 32) { BlockExact4(a, rows[n]); }
    vsum := seq(16, n requires 0 <= n < 16 => Wrap(vsum[n] - vcomp));
  }

  lemma NibblesNone(a: Bytes, qs: Bytes)
    requires |qs| == 16
    ensures DotNibbles(a, qs, 0) == 0
  {
  }

  lemma BlockExact4(a: Bytes, qs: Bytes)
    requires |a| == 32 && |qs| == 16
    ensures Wrap(DotNibbles(a, qs, 32) - 8 * SumS(a, 32)) == Dot4(a, qs, 32)
  {
    hide DotNibbles, SumS, Dot4;
    Dot4Is(a, qs, 32);
    SumRange(a, 32);
    WrapFits(Dot4(a, qs, 32));
  }
}
