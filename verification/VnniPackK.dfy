/** The packers of the 256-element K formats: a plane of low nibbles, and for q5_K and q6_K a plane of high bits. */
module VnniPackK {
  import opened Vnni
  import opened VnniPack

  datatype Block = Q4K(qs: Bytes) | Q5K(qs: Bytes, qh: Bytes) | Q6K(ql: Bytes, qh: Bytes)

  predicate WellFormed(b: Block) {
    match b
    case Q4K(qs) => |qs| == 128
    case Q5K(qs, qh) => |qs| == 128 && |qh| == 32
    case Q6K(ql, qh) => |ql| == 128 && |qh| == 64
  }

  /** Element p of a block. */
  function Quant(b: Block, p: nat): Byte
    requires WellFormed(b) && p < 256
  {
    match b
    case Q4K(qs) => Quant4K(qs, p)
    case Q5K(qs, qh) => Quant5K(qs, qh, p)
    case Q6K(ql, qh) => Quant6K(ql, qh, p)
  }

  /** Elements 4 * r to 4 * r + 3. */
  function DwordOf(b: Block, r: nat): Dword
    requires WellFormed(b) && r < 64
  {
    Dword(Quant(b, 4 * r), Quant(b, 4 * r + 1), Quant(b, 4 * r + 2), Quant(b, 4 * r + 3))
  }

  // ----- Loading 64 or 128 elements of a row.

  /** bytes_from_nibbles_64 for q4_K: elements 64 * k on. */
  function Load4K(qs: Bytes, k: nat): (v: Reg)
    requires |qs| == 128 && k < 4
    ensures |v| == 16
  {
    var tmp := Load(qs, 32 * k, 8);
    AndAll(tmp, 0x0F) + AndAll(SrlAll(tmp, 4), 0x0F)
  }

  lemma Quant4KAt(qs: Bytes, k: nat, h: nat, i: nat)
    requires |qs| == 128 && k < 4 && h < 2 && i < 32
    ensures Quant4K(qs, 64 * k + 32 * h + i) == if h == 0 then qs[32 * k + i] & 0x0F else qs[32 * k + i] >> 4
  {
    var p := 64 * k + 32 * h + i;
    assert p / 64 == k && p % 64 == 32 * h + i && p % 32 == i;
  }

  /** Dwords of the 4-bit plane of group 2 * k + h. */
  function Plane4K(qs: Bytes, k: nat, h: nat, m: nat): Dword
    requires |qs| == 128 && k < 4 && h < 2 && m < 8
  {
    var p := 64 * k + 32 * h + 4 * m;
    Dword(Quant4K(qs, p), Quant4K(qs, p + 1), Quant4K(qs, p + 2), Quant4K(qs, p + 3))
  }

  lemma Load4KAt(qs: Bytes, k: nat, h: nat, m: nat)
    requires |qs| == 128 && k < 4 && h < 2 && m < 8
    ensures var d := Load(qs, 32 * k, 8)[m];
      Load4K(qs, k)[8 * h + m] == if h == 0 then And(d, 0x0F) else And(Srl(d, 4), 0x0F)
  {
    hide Srl, And, Load;
  }

  lemma LowHalfIs(d: Dword)
    ensures And(d, 0x0F) == Dword(d.b0 & 0x0F, d.b1 & 0x0F, d.b2 & 0x0F, d.b3 & 0x0F)
    ensures HighHalf(d) == Dword(d.b0 >> 4, d.b1 >> 4, d.b2 >> 4, d.b3 >> 4)
  {
  }

  lemma Plane4KAt(qs: Bytes, k: nat, h: nat, m: nat)
    requires |qs| == 128 && k < 4 && h < 2 && m < 8
    ensures var d := Load(qs, 32 * k, 8)[m];
      Plane4K(qs, k, h, m) == if h == 0 then And(d, 0x0F) else HighHalf(d)
  {
    hide Quant4K, And, HighHalf;
    var d, at := Load(qs, 32 * k, 8)[m], 32 * k + 4 * m;
    assert d == Dword(qs[at], qs[at + 1], qs[at + 2], qs[at + 3]);
    hide Load;
    Quant4KAt(qs, k, h, 4 * m);
    Quant4KAt(qs, k, h, 4 * m + 1);
    Quant4KAt(qs, k, h, 4 * m + 2);
    Quant4KAt(qs, k, h, 4 * m + 3);
    LowHalfIs(d);
  }

  lemma Load4KIs(qs: Bytes, k: nat, h: nat, m: nat)
    requires |qs| == 128 && k < 4 && h < 2 && m < 8
    ensures Load4K(qs, k)[8 * h + m] == Plane4K(qs, k, h, m) && Below(Plane4K(qs, k, h, m), 16)
  {
    hide Srl, And, HighHalf, Load, Load4K, Plane4K, Below;
    Load4KAt(qs, k, h, m);
    Plane4KAt(qs, k, h, m);
    HighNibbles(Load(qs, 32 * k, 8)[m]);
    SmallNibbles(Load(qs, 32 * k, 8)[m]);
  }

  /** One dword of bytes_from_nibbles_64 for q5_K: nibbles x plus bit c of h, moved to bit 4. */
  function WithBit(x: Dword, h: Dword, c: Byte): Dword
    requires c < 8
  {
    Add(x, Sll(Srl(And(h, 1 << c), c), 4))
  }

  /** x with bit c of the bytes of h as its bits 4. */
  function PlusBit(x: Dword, h: Dword, c: Byte): Dword
    requires c < 8
  {
    Dword(Quantum(x.b0, OneBit(h.b0, c)), Quantum(x.b1, OneBit(h.b1, c)), Quantum(x.b2, OneBit(h.b2, c)), Quantum(x.b3, OneBit(h.b3, c)))
  }

  lemma WithBitIs(x: Dword, h: Dword, c: Byte)
    requires c < 8 && Below(x, 16)
    ensures WithBit(x, h, c) == PlusBit(x, h, c) && Below(PlusBit(x, h, c), 32)
  {
  }

  /** bytes_from_nibbles_64 for q5_K. */
  function Load5K(qs: Bytes, qh: Bytes, k: nat): (v: Reg)
    requires |qs| == 128 && |qh| == 32 && k < 4
    ensures |v| == 16
  {
    var low, h := Load4K(qs, k), Load(qh, 0, 8);
    seq(16, l requires 0 <= l < 16 => WithBit(low[l], h[l % 8], if l < 8 then Count(2 * k) else Count(2 * k + 1)))
  }

  lemma Quant5KAt(qs: Bytes, qh: Bytes, k: nat, h: nat, i: nat)
    requires |qs| == 128 && |qh| == 32 && k < 4 && h < 2 && i < 32
    ensures Quant5K(qs, qh, 64 * k + 32 * h + i) == Quantum(Quant4K(qs, 64 * k + 32 * h + i), OneBit(qh[i], Count(2 * k + h)))
  {
    hide Quant4K, Quantum, OneBit, Count;
    var p := 64 * k + 32 * h + i;
    assert p % 32 == i && p / 32 == 2 * k + h;
  }

  lemma Load5KAt(qs: Bytes, qh: Bytes, k: nat, h: nat, m: nat)
    requires |qs| == 128 && |qh| == 32 && k < 4 && h < 2 && m < 8
    ensures Load5K(qs, qh, k)[8 * h + m] == WithBit(Load4K(qs, k)[8 * h + m], Load(qh, 0, 8)[m], Count(2 * k + h))
  {
    hide WithBit, Load4K, Load, Count;
    if h == 0 { } else { }
  }

  lemma Dword5K(qs: Bytes, qh: Bytes, k: nat, h: nat, m: nat)
    requires |qs| == 128 && |qh| == 32 && k < 4 && h < 2 && m < 8
    ensures DwordOf(Q5K(qs, qh), 16 * k + 8 * h + m) == PlusBit(Plane4K(qs, k, h, m), Load(qh, 0, 8)[m], Count(2 * k + h))
  {
    hide Quant4K, Quant5K, Quantum, OneBit, Count;
    Quant5KAt(qs, qh, k, h, 4 * m);
    Quant5KAt(qs, qh, k, h, 4 * m + 1);
    Quant5KAt(qs, qh, k, h, 4 * m + 2);
    Quant5KAt(qs, qh, k, h, 4 * m + 3);
  }

  lemma Load5KIs(qs: Bytes, qh: Bytes, k: nat, h: nat, m: nat)
    requires |qs| == 128 && |qh| == 32 && k < 4 && h < 2 && m < 8
    ensures Load5K(qs, qh, k)[8 * h + m] == DwordOf(Q5K(qs, qh), 16 * k + 8 * h + m)
    ensures Below(DwordOf(Q5K(qs, qh), 16 * k + 8 * h + m), 32)
  {
    hide WithBit, PlusBit, Load4K, Load5K, Load, Plane4K, DwordOf, Below, Count;
    Load4KIs(qs, k, h, m);
    Load5KAt(qs, qh, k, h, m);
    Dword5K(qs, qh, k, h, m);
    WithBitIs(Plane4K(qs, k, h, m), Load(qh, 0, 8)[m], Count(2 * k + h));
  }

  /** One dword of bytes_from_nibbles_128: nibbles x plus bits 2q and 2q + 1 of h, moved to bits 4 and 5. */
  function WithTwoBits(x: Dword, h: Dword, c: Byte): Dword
    requires c < 8
  {
    Or(x, Sll(And(Srl(h, c), 3), 4))
  }

  function PlusBits(x: Dword, h: Dword, c: Byte): Dword
    requires c < 8
  {
    Dword(Quantum(x.b0, TwoBits(h.b0, c)), Quantum(x.b1, TwoBits(h.b1, c)), Quantum(x.b2, TwoBits(h.b2, c)), Quantum(x.b3, TwoBits(h.b3, c)))
  }

  lemma WithTwoBitsIs(x: Dword, h: Dword, c: Byte)
    requires c < 8 && c % 2 == 0 && Below(x, 16)
    ensures WithTwoBits(x, h, c) == PlusBits(x, h, c) && Below(PlusBits(x, h, c), 64)
  {
  }

  /** bytes_from_nibbles_128: quarter q (32 elements) of 128. */
  function Load6K(ql: Bytes, qh: Bytes, k: nat, q: nat): (v: Reg)
    requires |ql| == 128 && |qh| == 64 && k < 2 && q < 4
    ensures |v| == 8
  {
    var bits, h := Load(ql, 64 * k + 32 * (q % 2), 8), Load(qh, 32 * k, 8);
    var low := AndAll(if q < 2 then bits else SrlAll(bits, 4), 0x0F);
    seq(8, l requires 0 <= l < 8 => WithTwoBits(low[l], h[l], Count(2 * q)))
  }

  lemma Quant6KAt(ql: Bytes, qh: Bytes, k: nat, q: nat, i: nat)
    requires |ql| == 128 && |qh| == 64 && k < 2 && q < 4 && i < 32
    ensures var low := ql[64 * k + 32 * (q % 2) + i];
      Quant6K(ql, qh, 128 * k + 32 * q + i) == Quantum(Nibble6(low, q), TwoBits(qh[32 * k + i], Count(2 * q)))
  {
    hide Quantum, TwoBits, Count, Nibble6;
    var p := 128 * k + 32 * q + i;
    assert p / 128 == k && p % 128 / 32 == q && p % 32 == i;
  }

  /** The nibbles of dword m of quarter q. */
  function Low6K(ql: Bytes, k: nat, q: nat, m: nat): Dword
    requires |ql| == 128 && k < 2 && q < 4 && m < 8
  {
    NibblesOf(Load(ql, 64 * k + 32 * (q % 2), 8)[m], q)
  }

  function NibblesOf(b: Dword, q: nat): Dword {
    And(if q < 2 then b else Srl(b, 4), 0x0F)
  }

  lemma NibblesAre(b: Dword, q: nat)
    ensures NibblesOf(b, q) == (if q < 2 then And(b, 0x0F) else HighHalf(b)) && Below(NibblesOf(b, q), 16)
  {
    hide Srl, And, Below, HighHalf;
    HighNibbles(b);
    SmallNibbles(b);
  }

  lemma Load6KAt(ql: Bytes, qh: Bytes, k: nat, q: nat, m: nat)
    requires |ql| == 128 && |qh| == 64 && k < 2 && q < 4 && m < 8
    ensures Load6K(ql, qh, k, q)[m] == WithTwoBits(Low6K(ql, k, q, m), Load(qh, 32 * k, 8)[m], Count(2 * q))
  {
    hide WithTwoBits, Srl, And, Count, Load;
  }

  lemma Low6KBytes(ql: Bytes, k: nat, q: nat, m: nat)
    requires |ql| == 128 && k < 2 && q < 4 && m < 8
    ensures var at := 64 * k + 32 * (q % 2) + 4 * m;
      Low6K(ql, k, q, m) == Dword(Nibble6(ql[at], q), Nibble6(ql[at + 1], q), Nibble6(ql[at + 2], q), Nibble6(ql[at + 3], q))
  {
    hide NibblesOf, Below;
    NibblesAre(Load(ql, 64 * k + 32 * (q % 2), 8)[m], q);
  }

  lemma Dword6K(ql: Bytes, qh: Bytes, k: nat, q: nat, m: nat)
    requires |ql| == 128 && |qh| == 64 && k < 2 && q < 4 && m < 8
    ensures DwordOf(Q6K(ql, qh), 32 * k + 8 * q + m) == PlusBits(Low6K(ql, k, q, m), Load(qh, 32 * k, 8)[m], Count(2 * q))
  {
    hide Quant6K, Low6K, Nibble6, Quantum, TwoBits, Count, Load;
    Low6KBytes(ql, k, q, m);
    Quant6KAt(ql, qh, k, q, 4 * m);
    Quant6KAt(ql, qh, k, q, 4 * m + 1);
    Quant6KAt(ql, qh, k, q, 4 * m + 2);
    Quant6KAt(ql, qh, k, q, 4 * m + 3);
  }

  lemma Load6KIs(ql: Bytes, qh: Bytes, k: nat, q: nat, m: nat)
    requires |ql| == 128 && |qh| == 64 && k < 2 && q < 4 && m < 8
    ensures Load6K(ql, qh, k, q)[m] == DwordOf(Q6K(ql, qh), 32 * k + 8 * q + m)
    ensures Below(DwordOf(Q6K(ql, qh), 32 * k + 8 * q + m), 64)
  {
    hide WithTwoBits, Load6K, NibblesOf, Load, DwordOf, Below, PlusBits, Count;
    Load6KAt(ql, qh, k, q, m);
    Dword6K(ql, qh, k, q, m);
    NibblesAre(Load(ql, 64 * k + 32 * (q % 2), 8)[m], q);
    EvenShift(q);
    WithTwoBitsIs(Low6K(ql, k, q, m), Load(qh, 32 * k, 8)[m], Count(2 * q));
  }

  lemma EvenShift(q: nat)
    requires q < 4
    ensures Count(2 * q) % 2 == 0
  {
    if q == 0 { } else if q == 1 { } else if q == 2 { } else { }
  }

  // ----- The planes of high bits.

  /** What row i of a group contributes to a q5_K high plane: its bit 4, moved to bit i. */
  function Term5(x: Dword, i: nat): Dword
    requires i < 8
  {
    if i == 0 then Srl(And(x, 0x10), 4) else if i == 1 then Srl(And(x, 0x10), 3)
    else if i == 2 then Srl(And(x, 0x10), 2) else if i == 3 then Srl(And(x, 0x10), 1)
    else if i == 4 then And(x, 0x10) else if i == 5 then Sll(And(x, 0x10), 1)
    else if i == 6 then Sll(And(x, 0x10), 2) else Sll(And(x, 0x10), 3)
  }

  /** One dword of a q5_K high plane after the first n rows of the group. */
  function High5(x: seq<Dword>, n: nat): Dword
    requires n <= 8 && n <= |x|
  {
    if n == 0 then Dword(0, 0, 0, 0) else Add(High5(x, n - 1), Term5(x[n - 1], n - 1))
  }

  /** One dword of a q6_K high plane: bits 2i and 2i + 1 are bits 4 and 5 of x[i]. */
  function High6(x: seq<Dword>): Dword
    requires |x| == 4
  {
    Add(Add(Add(Srl(And(x[0], 0x30), 4), Srl(And(x[1], 0x30), 2)), And(x[2], 0x30)), Sll(And(x[3], 0x30), 2))
  }

  /** The high bits that unpack_B adds back for row n of a q5_K group. */
  function Up5(h: Dword, n: Byte): Dword
    requires n < 8
  {
    Sll(Srl(And(h, 1 << n), n), 4)
  }

  /** ... and for row n of a q6_K group. */
  function Up6(h: Dword, n: nat): Dword
    requires n < 4
  {
    if n == 0 then Sll(And(h, 0x03), 4) else if n == 1 then Sll(And(h, 0x0C), 2)
    else if n == 2 then And(h, 0x30) else Srl(And(h, 0xC0), 2)
  }

  function TermByte5(a: Byte, i: nat): Byte
    requires i < 8
  {
    if i == 0 then (a & 16) >> 4 else if i == 1 then (a & 16) >> 3 else if i == 2 then (a & 16) >> 2 else if i == 3 then (a & 16) >> 1
    else if i == 4 then a & 16 else if i == 5 then (a & 16) << 1 else if i == 6 then (a & 16) << 2 else (a & 16) << 3
  }

  lemma Term5Bytes(x: Dword, i: nat)
    requires i < 8
    ensures Term5(x, i) == Dword(TermByte5(x.b0, i), TermByte5(x.b1, i), TermByte5(x.b2, i), TermByte5(x.b3, i))
  {
    hide Srl, Sll;
    if i < 4 {
      MaskedRight(x, 16, if i == 0 then 4 else if i == 1 then 3 else if i == 2 then 2 else 1);
    } else if i > 4 {
      MaskedLeft(x, 16, if i == 5 then 1 else if i == 6 then 2 else 3);
    }
  }

  function HighByte5(a: seq<Byte>, n: nat): Byte
    requires n <= 8 && n <= |a|
  {
    if n == 0 then 0 else Plus(HighByte5(a, n - 1), TermByte5(a[n - 1], n - 1))
  }

  function ByteOf(x: seq<Dword>, j: nat): (a: seq<Byte>)
    requires j < 4
    ensures |a| == |x|
  {
    seq(|x|, i requires 0 <= i < |x| => if j == 0 then x[i].b0 else if j == 1 then x[i].b1 else if j == 2 then x[i].b2 else x[i].b3)
  }

  lemma LastByte(x: seq<Dword>, n: nat, j: nat)
    requires 0 < n <= 8 && n <= |x| && j < 4
    ensures var y := x[n - 1];
      HighByte5(ByteOf(x, j), n) == Plus(HighByte5(ByteOf(x, j), n - 1),
        TermByte5(if j == 0 then y.b0 else if j == 1 then y.b1 else if j == 2 then y.b2 else y.b3, n - 1))
  {
    hide TermByte5, Plus;
  }

  lemma {:induction false} High5Bytes(x: seq<Dword>, n: nat)
    requires n <= 8 && n <= |x|
    ensures High5(x, n) == Dword(HighByte5(ByteOf(x, 0), n), HighByte5(ByteOf(x, 1), n), HighByte5(ByteOf(x, 2), n), HighByte5(ByteOf(x, 3), n))
  {
    hide Term5, TermByte5, Plus;
    if n > 0 {
      High5Bytes(x, n - 1);
      Term5Bytes(x[n - 1], n - 1);
      LastByte(x, n, 0);
      LastByte(x, n, 1);
      LastByte(x, n, 2);
      LastByte(x, n, 3);
      hide HighByte5, ByteOf;
    }
  }

  function HighByte6(a0: Byte, a1: Byte, a2: Byte, a3: Byte): Byte {
    Plus(Plus(Plus((a0 & 0x30) >> 4, (a1 & 0x30) >> 2), a2 & 0x30), (a3 & 0x30) << 2)
  }

  lemma High6Bytes(x: seq<Dword>)
    requires |x| == 4
    ensures High6(x) == Dword(HighByte6(x[0].b0, x[1].b0, x[2].b0, x[3].b0), HighByte6(x[0].b1, x[1].b1, x[2].b1, x[3].b1),
                              HighByte6(x[0].b2, x[1].b2, x[2].b2, x[3].b2), HighByte6(x[0].b3, x[1].b3, x[2].b3, x[3].b3))
  {
    hide Srl, Sll, Plus;
    MaskedRight(x[0], 0x30, 4);
    MaskedRight(x[1], 0x30, 2);
    MaskedLeft(x[3], 0x30, 2);
  }

  function UpByte5(h: Byte, n: Byte): Byte
    requires n < 8
  {
    ((h >> n) & 1) << 4
  }

  lemma Up5Bytes(h: Dword, n: Byte)
    requires n < 8
    ensures Up5(h, n) == Dword(UpByte5(h.b0, n), UpByte5(h.b1, n), UpByte5(h.b2, n), UpByte5(h.b3, n))
  {
  }

  /** All eight terms at once. */
  function AllTerms5(a0: Byte, a1: Byte, a2: Byte, a3: Byte, a4: Byte, a5: Byte, a6: Byte, a7: Byte): Byte {
    ((a0 & 16) >> 4) + ((a1 & 16) >> 3) + ((a2 & 16) >> 2) + ((a3 & 16) >> 1) + (a4 & 16) + ((a5 & 16) << 1) + ((a6 & 16) << 2) + ((a7 & 16) << 3)
  }

  lemma HighByte5Is(a: seq<Byte>)
    requires |a| == 8
    ensures HighByte5(a, 8) == AllTerms5(a[0], a[1], a[2], a[3], a[4], a[5], a[6], a[7])
  {
    assert HighByte5(a, 1) == (a[0] & 16) >> 4;
    assert HighByte5(a, 2) == HighByte5(a, 1) + ((a[1] & 16) >> 3);
    assert HighByte5(a, 3) == HighByte5(a, 2) + ((a[2] & 16) >> 2);
    assert HighByte5(a, 4) == HighByte5(a, 3) + ((a[3] & 16) >> 1);
    assert HighByte5(a, 5) == HighByte5(a, 4) + (a[4] & 16);
    assert HighByte5(a, 6) == HighByte5(a, 5) + ((a[5] & 16) << 1);
    assert HighByte5(a, 7) == HighByte5(a, 6) + ((a[6] & 16) << 2);
  }

  lemma BitAdded(a0: Byte, a1: Byte, a2: Byte, a3: Byte, a4: Byte, a5: Byte, a6: Byte, a7: Byte, n: nat)
    requires n < 8
    ensures UpByte5(AllTerms5(a0, a1, a2, a3, a4, a5, a6, a7), Count(n)) == 16 &
      (if n == 0 then a0 else if n == 1 then a1 else if n == 2 then a2 else if n == 3 then a3
       else if n == 4 then a4 else if n == 5 then a5 else if n == 6 then a6 else a7)
  {
    if n == 0 { } else if n == 1 { } else if n == 2 { } else if n == 3 { } else if n == 4 { } else if n == 5 { } else if n == 6 { } else { }
  }

  lemma Byte5Inverse(a: seq<Byte>, n: nat)
    requires |a| == 8 && n < 8 && a[n] < 32
    ensures (a[n] & 15) + UpByte5(HighByte5(a, 8), Count(n)) == a[n]
  {
    hide UpByte5, AllTerms5, HighByte5;
    HighByte5Is(a);
    BitAdded(a[0], a[1], a[2], a[3], a[4], a[5], a[6], a[7], n);
    SplitByte(a[n]);
  }

  lemma SplitByte(a: Byte)
    ensures a < 32 ==> (a & 15) + (16 & a) == a
    ensures a < 64 ==> (a & 15) + (a & 0x30) == a
  {
  }

  lemma High5Inverse(x: seq<Dword>, n: nat)
    requires |x| == 8 && n < 8 && Below(x[n], 32)
    ensures Add(And(x[n], 0x0F), Up5(High5(x, 8), Count(n))) == x[n]
  {
    hide High5, Up5, HighByte5, UpByte5;
    High5Bytes(x, 8);
    Byte5Inverse(ByteOf(x, 0), n);
    Byte5Inverse(ByteOf(x, 1), n);
    Byte5Inverse(ByteOf(x, 2), n);
    Byte5Inverse(ByteOf(x, 3), n);
    Up5Bytes(High5(x, 8), Count(n));
  }

  function UpByte6(h: Byte, n: nat): Byte
    requires n < 4
  {
    if n == 0 then (h & 0x03) << 4 else if n == 1 then (h & 0x0C) << 2 else if n == 2 then h & 0x30 else (h & 0xC0) >> 2
  }

  lemma Up6Bytes(h: Dword, n: nat)
    requires n < 4
    ensures Up6(h, n) == Dword(UpByte6(h.b0, n), UpByte6(h.b1, n), UpByte6(h.b2, n), UpByte6(h.b3, n))
  {
    hide Srl, Sll;
    if n == 0 { MaskedLeft(h, 0x03, 4); } else if n == 1 { MaskedLeft(h, 0x0C, 2); } else if n == 3 { MaskedRight(h, 0xC0, 2); }
  }

  lemma TwoBitsAdded(a0: Byte, a1: Byte, a2: Byte, a3: Byte)
    ensures UpByte6(HighByte6(a0, a1, a2, a3), 0) == a0 & 0x30
    ensures UpByte6(HighByte6(a0, a1, a2, a3), 1) == a1 & 0x30
    ensures UpByte6(HighByte6(a0, a1, a2, a3), 2) == a2 & 0x30
    ensures UpByte6(HighByte6(a0, a1, a2, a3), 3) == a3 & 0x30
  {
    // No carries: the four terms occupy disjoint bits.
    assert HighByte6(a0, a1, a2, a3) == ((a0 & 0x30) >> 4) | ((a1 & 0x30) >> 2) | (a2 & 0x30) | ((a3 & 0x30) << 2);
  }

  /** A byte's low nibble, completed from byte h of the two-bit plane. */
  function Back6(a: Byte, h: Byte, n: nat): Byte
    requires n < 4
  {
    Plus(a & 0x0F, UpByte6(h, n))
  }

  lemma Byte6Inverse(a0: Byte, a1: Byte, a2: Byte, a3: Byte)
    requires a0 < 64 && a1 < 64 && a2 < 64 && a3 < 64
    ensures var h := HighByte6(a0, a1, a2, a3);
      Back6(a0, h, 0) == a0 && Back6(a1, h, 1) == a1 && Back6(a2, h, 2) == a2 && Back6(a3, h, 3) == a3
  {
    hide UpByte6, HighByte6;
    TwoBitsAdded(a0, a1, a2, a3);
    SplitByte(a0);
    SplitByte(a1);
    SplitByte(a2);
    SplitByte(a3);
  }

  lemma AddBack6(d: Dword, h: Dword, n: nat)
    requires n < 4
    ensures Add(And(d, 0x0F), Up6(h, n)) == Dword(Back6(d.b0, h.b0, n), Back6(d.b1, h.b1, n), Back6(d.b2, h.b2, n), Back6(d.b3, h.b3, n))
  {
    hide Up6, UpByte6, Plus;
    Up6Bytes(h, n);
  }

  lemma High6Inverse(x: seq<Dword>, n: nat)
    requires |x| == 4 && n < 4 && forall i :: 0 <= i < 4 ==> Below(x[i], 64)
    ensures Add(And(x[n], 0x0F), Up6(High6(x), n)) == x[n]
  {
    hide High6, Up6, HighByte6, Back6, Add, And;
    var x0, x1, x2, x3 := x[0], x[1], x[2], x[3];
    assert Below(x0, 64) && Below(x1, 64) && Below(x2, 64) && Below(x3, 64);
    High6Bytes(x);
    Byte6Inverse(x0.b0, x1.b0, x2.b0, x3.b0);
    Byte6Inverse(x0.b1, x1.b1, x2.b1, x3.b1);
    Byte6Inverse(x0.b2, x1.b2, x2.b2, x3.b2);
    Byte6Inverse(x0.b3, x1.b3, x2.b3, x3.b3);
    if n == 0 { AddBack6(x0, High6(x), 0); } else if n == 1 { AddBack6(x1, High6(x), 1); }
    else if n == 2 { AddBack6(x2, High6(x), 2); } else { AddBack6(x3, High6(x), 3); }
  }
}
