/** Registers as sequences of dwords, the byte instructions that the VNNI packers use, and the dword
    transposes they are built on. */
module Vnni {

  type Byte = bv8

  /** Four bytes, lowest first: two 16-bit words (b0, b1) and (b2, b3). */
  datatype Dword = Dword(b0: Byte, b1: Byte, b2: Byte, b3: Byte)

  type Reg = seq<Dword>

  /** A shift count or bit number as a byte. */
  function Count(n: nat): (c: Byte)
    requires n < 8
    ensures c < 8
  {
    if n == 0 then 0 else if n == 1 then 1 else if n == 2 then 2 else if n == 3 then 3
    else if n == 4 then 4 else if n == 5 then 5 else if n == 6 then 6 else 7
  }

  // ----- Byte instructions on one dword.

  /** A 16-bit right shift moves bits of the high byte into the low one. */
  function ShiftLow(low: Byte, high: Byte, c: Byte): Byte
    requires c < 8
  {
    (low >> c) | (high << (8 - c))
  }

  function Srl(d: Dword, c: Byte): Dword
    requires c < 8
  {
    Dword(ShiftLow(d.b0, d.b1, c), d.b1 >> c, ShiftLow(d.b2, d.b3, c), d.b3 >> c)
  }

  function Sll(d: Dword, c: Byte): Dword
    requires c < 8
  {
    Dword(d.b0 << c, (d.b1 << c) | (d.b0 >> (8 - c)), d.b2 << c, (d.b3 << c) | (d.b2 >> (8 - c)))
  }

  function And(d: Dword, m: Byte): Dword {
    Dword(d.b0 & m, d.b1 & m, d.b2 & m, d.b3 & m)
  }

  function Or(d: Dword, e: Dword): Dword {
    Dword(d.b0 | e.b0, d.b1 | e.b1, d.b2 | e.b2, d.b3 | e.b3)
  }

  /** Byte addition, wrapping. */
  function Plus(a: Byte, b: Byte): Byte {
    a + b
  }

  function Add(d: Dword, e: Dword): Dword {
    Dword(Plus(d.b0, e.b0), Plus(d.b1, e.b1), Plus(d.b2, e.b2), Plus(d.b3, e.b3))
  }

  function Sub(d: Dword, c: Byte): Dword {
    Dword(d.b0 - c, d.b1 - c, d.b2 - c, d.b3 - c)
  }

  predicate Below(d: Dword, bound: Byte) {
    d.b0 < bound && d.b1 < bound && d.b2 < bound && d.b3 < bound
  }

  // ----- Dword shuffles; q is a 128-bit lane, s a dword in it.

  function Lane<T>(v: seq<T>, q: nat, s: nat): T
    requires 4 * q + s < |v|
  {
    v[4 * q + s]
  }

  /** Position of dword l in its lane. */
  function Pos(l: nat): (p: nat)
    ensures p < 4 && p <= l
  {
    l % 4
  }

  lemma PosIs(q: nat, s: nat)
    requires s < 4
    ensures Pos(4 * q + s) == s
  {
  }

  lemma WholeLanes(l: nat, n: nat)
    requires l < n && n % 4 == 0
    ensures l - Pos(l) + 4 <= n
  {
  }

  /** Dword d of l's lane. */
  function Fetch<T>(v: seq<T>, l: nat, d: nat): T
    requires |v| % 4 == 0 && l < |v| && d < 4
  {
    WholeLanes(l, |v|);
    v[l - Pos(l) + d]
  }

  /** unpacklo_epi32 (half 0) and unpackhi_epi32 (half 1): [a0, b0, a1, b1] or [a2, b2, a3, b3] in every lane. */
  function Unpack32<T>(a: seq<T>, b: seq<T>, half: nat): (r: seq<T>)
    requires |a| == |b| && |a| % 4 == 0 && half < 2
    ensures |r| == |a|
  {
    seq(|a|, l requires 0 <= l < |a| =>
      Fetch(if Pos(l) == 0 || Pos(l) == 2 then a else b, l, if Pos(l) < 2 then 2 * half else 2 * half + 1))
  }

  /** unpacklo/hi_epi64, which is also shuffle_ps with 0x44 and 0xee: [a0, a1, b0, b1] or [a2, a3, b2, b3]. */
  function Unpack64<T>(a: seq<T>, b: seq<T>, half: nat): (r: seq<T>)
    requires |a| == |b| && |a| % 4 == 0 && half < 2
    ensures |r| == |a|
  {
    seq(|a|, l requires 0 <= l < |a| =>
      Fetch(if Pos(l) < 2 then a else b, l, if Pos(l) == 0 || Pos(l) == 2 then 2 * half else 2 * half + 1))
  }

  /** shuffle_i32x4 with 0x88 (odd 0) and 0xdd (odd 1): lanes [a0, a2, b0, b2] or [a1, a3, b1, b3]. */
  function Shuffle128<T>(a: seq<T>, b: seq<T>, odd: nat): (r: seq<T>)
    requires |a| == |b| == 16 && odd < 2
    ensures |r| == 16
  {
    seq(16, l requires 0 <= l < 16 => (if l < 8 then a else b)[(if l < 4 || 8 <= l < 12 then 0 else 8) + 4 * odd + Pos(l)])
  }

  /** permute2f128(a, b) with 0x02 (high 0) and 0x13 (high 1): b's 128-bit half, then a's. */
  function Halves<T>(a: seq<T>, b: seq<T>, high: nat): (r: seq<T>)
    requires |a| == |b| == 8 && high < 2
    ensures |r| == 8
  {
    b[4 * high..4 * high + 4] + a[4 * high..4 * high + 4]
  }

  /** The first two stages: in every lane the four registers are transposed as a 4 x 4 block. */
  function Quad<T>(a: seq<T>, b: seq<T>, c: seq<T>, d: seq<T>, t: nat): (r: seq<T>)
    requires |a| == |b| == |c| == |d| && |a| % 4 == 0 && t < 4
    ensures |r| == |a|
  {
    Unpack64(Unpack32(a, b, t / 2), Unpack32(c, d, t / 2), t % 2)
  }

  lemma QuadAt<T>(a: seq<T>, b: seq<T>, c: seq<T>, d: seq<T>, t: nat, q: nat, s: nat)
    requires |a| == |b| == |c| == |d| && |a| % 4 == 0 && t < 4 && s < 4 && 4 * q + 4 <= |a|
    ensures Lane(Quad(a, b, c, d, t), q, s) == Lane(if s == 0 then a else if s == 1 then b else if s == 2 then c else d, q, t)
  {
    hide Unpack32, Unpack64, Lane;
    Unpack64At(Unpack32(a, b, t / 2), Unpack32(c, d, t / 2), t % 2, q, s);
    Unpack32At(a, b, t / 2, q, 2 * (t % 2) + s % 2);
    Unpack32At(c, d, t / 2, q, 2 * (t % 2) + s % 2);
  }

  lemma FetchIs<T>(v: seq<T>, q: nat, s: nat, d: nat)
    requires |v| % 4 == 0 && s < 4 && d < 4 && 4 * q + 4 <= |v|
    ensures Pos(4 * q + s) == s && Fetch(v, 4 * q + s, d) == Lane(v, q, d)
  {
    PosIs(q, s);
  }

  lemma Unpack32At<T>(a: seq<T>, b: seq<T>, half: nat, q: nat, s: nat)
    requires |a| == |b| && |a| % 4 == 0 && half < 2 && s < 4 && 4 * q + 4 <= |a|
    ensures Lane(Unpack32(a, b, half), q, s) == Lane(if s % 2 == 0 then a else b, q, 2 * half + s / 2)
  {
    hide Pos, Fetch;
    FetchIs(if s % 2 == 0 then a else b, q, s, 2 * half + s / 2);
    if s == 0 { } else if s == 1 { } else if s == 2 { } else { }
  }

  lemma Unpack64At<T>(a: seq<T>, b: seq<T>, half: nat, q: nat, s: nat)
    requires |a| == |b| && |a| % 4 == 0 && half < 2 && s < 4 && 4 * q + 4 <= |a|
    ensures Lane(Unpack64(a, b, half), q, s) == Lane(if s < 2 then a else b, q, 2 * half + s % 2)
  {
    hide Pos, Fetch;
    FetchIs(if s < 2 then a else b, q, s, 2 * half + s % 2);
    if s == 0 { } else if s == 1 { } else if s == 2 { } else { }
  }

  lemma Shuffle128At<T>(a: seq<T>, b: seq<T>, odd: nat, q: nat, s: nat)
    requires |a| == |b| == 16 && odd < 2 && q < 4 && s < 4
    ensures Lane(Shuffle128(a, b, odd), q, s) == Lane(if q < 2 then a else b, 2 * (q % 2) + odd, s)
  {
    PosIs(q, s);
    hide Pos;
    if q == 0 { } else if q == 1 { } else if q == 2 { } else { }
  }

  /** Rows of equal length. */
  predicate Grid<T>(v: seq<seq<T>>, rows: nat, cols: nat) {
    |v| == rows && forall r :: 0 <= r < rows ==> |v[r]| == cols
  }

  /** v[r][l] == u[l][r]. */
  ghost predicate Transposed<T>(v: seq<seq<T>>, u: seq<seq<T>>, n: nat) {
    Grid(v, n, n) && Grid(u, n, n) && forall r, l :: 0 <= r < n && 0 <= l < n ==> v[r][l] == u[l][r]
  }

  /** transpose_8x8_32bit, register r = 4 * g + t of the result. */
  function Transpose8Reg<T>(v: seq<seq<T>>, g: nat, t: nat): (r: seq<T>)
    requires Grid(v, 8, 8) && g < 2 && t < 4
    ensures |r| == 8
  {
    Halves(Quad(v[4], v[5], v[6], v[7], t), Quad(v[0], v[1], v[2], v[3], t), g)
  }

  function Transpose8<T>(v: seq<seq<T>>): (r: seq<seq<T>>)
    requires Grid(v, 8, 8)
    ensures Grid(r, 8, 8)
  {
    seq(8, r requires 0 <= r < 8 => Transpose8Reg(v, r / 4, r % 4))
  }

  lemma Transpose8At<T>(v: seq<seq<T>>, g: nat, t: nat, q: nat, s: nat)
    requires Grid(v, 8, 8) && g < 2 && t < 4 && q < 2 && s < 4
    ensures Lane(Transpose8Reg(v, g, t), q, s) == Lane(v[4 * q + s], g, t)
  {
    hide Quad;
    QuadAt(v[4], v[5], v[6], v[7], t, g, s);
    QuadAt(v[0], v[1], v[2], v[3], t, g, s);
    assert Lane(Transpose8Reg(v, g, t), q, s)
      == Lane(if q == 0 then Quad(v[0], v[1], v[2], v[3], t) else Quad(v[4], v[5], v[6], v[7], t), g, s);
  }

  lemma Transpose8IsTranspose<T>(v: seq<seq<T>>)
    requires Grid(v, 8, 8)
    ensures Transposed(Transpose8(v), v, 8)
  {
    hide Transpose8Reg;
    forall r, l | 0 <= r < 8 && 0 <= l < 8 ensures Transpose8(v)[r][l] == v[l][r] {
      Transpose8At(v, r / 4, r % 4, l / 4, l % 4);
    }
  }

  /** transpose_16x16_32bit: the 4 x 4 blocks are transposed in place, then the 128-bit lanes are exchanged. */
  function Blocks16<T>(v: seq<seq<T>>): (w: seq<seq<T>>)
    requires Grid(v, 16, 16)
    ensures Grid(w, 16, 16)
  {
    seq(16, r requires 0 <= r < 16 => Quad(v[r / 4 * 4], v[r / 4 * 4 + 1], v[r / 4 * 4 + 2], v[r / 4 * 4 + 3], r % 4))
  }

  /** Register 4 * g + t of the result, from the registers t, 4 + t, 8 + t, 12 + t of the second stage. */
  function Transpose16Reg<T>(w: seq<seq<T>>, g: nat, t: nat): (r: seq<T>)
    requires Grid(w, 16, 16) && g < 4 && t < 4
    ensures |r| == 16
  {
    Shuffle128(Shuffle128(w[t], w[4 + t], g % 2), Shuffle128(w[8 + t], w[12 + t], g % 2), g / 2)
  }

  function Transpose16<T>(v: seq<seq<T>>): (r: seq<seq<T>>)
    requires Grid(v, 16, 16)
    ensures Grid(r, 16, 16)
  {
    seq(16, r requires 0 <= r < 16 => Transpose16Reg(Blocks16(v), r / 4, r % 4))
  }

  /** Two shuffles bring lane 2 * gh + gl of w0 to w3 together. */
  lemma GatherLanes<T>(w0: seq<T>, w1: seq<T>, w2: seq<T>, w3: seq<T>, gh: nat, gl: nat, qh: nat, ql: nat, s: nat)
    requires |w0| == |w1| == |w2| == |w3| == 16 && gh < 2 && gl < 2 && qh < 2 && ql < 2 && s < 4
    ensures Lane(Shuffle128(Shuffle128(w0, w1, gl), Shuffle128(w2, w3, gl), gh), 2 * qh + ql, s)
         == Lane(if qh == 0 then (if ql == 0 then w0 else w1) else if ql == 0 then w2 else w3, 2 * gh + gl, s)
  {
    hide Shuffle128;
    Shuffle128At(Shuffle128(w0, w1, gl), Shuffle128(w2, w3, gl), gh, 2 * qh + ql, s);
    if qh == 0 { Shuffle128At(w0, w1, gl, 2 * ql + gh, s); } else { Shuffle128At(w2, w3, gl, 2 * ql + gh, s); }
  }

  lemma Transpose16At<T>(v: seq<seq<T>>, g: nat, t: nat, q: nat, s: nat)
    requires Grid(v, 16, 16) && g < 4 && t < 4 && q < 4 && s < 4
    ensures Lane(Transpose16Reg(Blocks16(v), g, t), q, s) == Lane(v[4 * q + s], g, t)
  {
    hide Blocks16, Shuffle128;
    var w := Blocks16(v);
    BlockAt(v, q, t, g, s);
    GatherLanes(w[t], w[4 + t], w[8 + t], w[12 + t], g / 2, g % 2, q / 2, q % 2, s);
    assert w[4 * q + t] == if q / 2 == 0 then (if q % 2 == 0 then w[t] else w[4 + t]) else if q % 2 == 0 then w[8 + t] else w[12 + t];
  }

  lemma BlockAt<T>(v: seq<seq<T>>, h: nat, t: nat, q: nat, s: nat)
    requires Grid(v, 16, 16) && h < 4 && t < 4 && q < 4 && s < 4
    ensures Lane(Blocks16(v)[4 * h + t], q, s) == Lane(v[4 * h + s], q, t)
  {
    hide Quad;
    assert (4 * h + t) / 4 == h && (4 * h + t) % 4 == t;
    QuadAt(v[4 * h], v[4 * h + 1], v[4 * h + 2], v[4 * h + 3], t, q, s);
  }

  lemma Transpose16IsTranspose<T>(v: seq<seq<T>>)
    requires Grid(v, 16, 16)
    ensures Transposed(Transpose16(v), v, 16)
  {
    hide Transpose16Reg, Blocks16;
    forall r, l | 0 <= r < 16 && 0 <= l < 16 ensures Transpose16(v)[r][l] == v[l][r] {
      Transpose16At(v, r / 4, r % 4, l / 4, l % 4);
    }
  }
}
