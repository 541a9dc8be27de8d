/** Decoding packed E2M1 weights: the format, the byte tables, and the lane shuffles of the vector paths.
    Vectors are sequences of bytes, lane 0 first. */
module Packed4Decode {
  import opened VectorSums

  type Bytes = seq<bv8>

  // ----- The format.

  /** E2M1, section 5.3.3 of the OCP Microscaling Formats (MX) Specification v1.0: a sign bit, two exponent
      bits with bias 1, one mantissa bit, and exponent 0 for the subnormals. */
  function E2M1(n: bv8): real {
    var e, m := ((n >> 1) & 3) as int, (n & 1) as real;
    var magnitude := if e == 0 then m / 2.0 else Pow2(e - 1) * (1.0 + m / 2.0);
    if n & 8 == 0 then magnitude else -magnitude
  }

  /** E8M0, section 5.4.1 of the same document: a power of two with bias 127. */
  function E8M0(b: bv8): real {
    Pow2(b as int - 127)
  }

  /** A bfloat16 number given as its high and low byte (no infinities and NaNs). */
  function Bf16(hi: bv8, lo: bv8): real {
    var e, m := (((hi & 0x7F) << 1) | (lo >> 7)) as int, (lo & 0x7F) as real;
    var magnitude := if e == 0 then Pow2(-126) * (m / 128.0) else Pow2(e - 127) * (1.0 + m / 128.0);
    if hi & 0x80 == 0 then magnitude else -magnitude
  }

  /** nibble_of: the low nibble of a byte is the element with the even index. */
  function Nibble(row: Bytes, k: nat): bv8
    requires k / 2 < |row|
  {
    if k % 2 == 1 then row[k / 2] >> 4 else row[k / 2] & 0x0F
  }

  const E2M1_TABLE: seq<real> := [0.0, 0.5, 1.0, 1.5, 2.0, 3.0, 4.0, 6.0, 0.0, -0.5, -1.0, -1.5, -2.0, -3.0, -4.0, -6.0]
  const MAG_TABLE: seq<real> := [0.0, 0.5, 1.0, 1.5, 2.0, 3.0, 4.0, 6.0]
  const BF16_LO: Bytes := [0x00, 0x00, 0x80, 0xC0, 0x00, 0x40, 0x80, 0xC0, 0x00, 0x00, 0x80, 0xC0, 0x00, 0x40, 0x80, 0xC0]
  const BF16_HI: Bytes := [0x00, 0x3F, 0x3F, 0x3F, 0x40, 0x40, 0x40, 0x40, 0x80, 0xBF, 0xBF, 0xBF, 0xC0, 0xC0, 0xC0, 0xC0]

  /** A table lookup by the low four bits. */
  function Look<T>(table: seq<T>, n: bv8): T
    requires |table| == 16
  {
    table[(n & 0x0F) as nat]
  }

  /** mag[n & 7] * sign, as the general AVX2 path looks a nibble up. */
  function MagTimesSign(n: bv8): real {
    MAG_TABLE[(n & 7) as nat] * if n & 8 == 0 then 1.0 else -1.0
  }

  lemma NibbleCases(n: bv8)
    requires n < 16
    ensures n == 0 || n == 1 || n == 2 || n == 3 || n == 4 || n == 5 || n == 6 || n == 7
         || n == 8 || n == 9 || n == 10 || n == 11 || n == 12 || n == 13 || n == 14 || n == 15
  {
  }

  /** The four ways the kernels turn a nibble into a number agree with the format. */
  lemma TablesAgree(n: bv8)
    requires n < 16
    ensures Look(E2M1_TABLE, n) == E2M1(n)
    ensures MagTimesSign(n) == E2M1(n)
    ensures Bf16(Look(BF16_HI, n), Look(BF16_LO, n)) == E2M1(n)
  {
    NibbleCases(n);
    assert Pow2(-1) == 0.5 && Pow2(0) == 1.0 && Pow2(1) == 2.0 && Pow2(2) == 4.0;
    if n == 0 { } else if n == 1 { } else if n == 2 { } else if n == 3 { } else if n == 4 { } else if n == 5 { }
    else if n == 6 { } else if n == 7 { } else if n == 8 { } else if n == 9 { } else if n == 10 { } else if n == 11 { }
    else if n == 12 { } else if n == 13 { } else if n == 14 { } else { }
  }

  // ----- Vector instructions.

  /** srli_epi16 by 4: 16-bit lanes, so bits cross from the odd byte into the even one. */
  function ShiftRight16By4(v: Bytes): Bytes
    requires |v| % 2 == 0
  {
    seq(|v|, i requires 0 <= i < |v| => if i % 2 == 0 then Right4(v[i], v[i + 1]) else Right4(v[i], 0))
  }

  function Right4(low: bv8, high: bv8): bv8 {
    (low >> 4) | (high << 4)
  }

  function ShiftRight16By3(v: Bytes): Bytes
    requires |v| % 2 == 0
  {
    seq(|v|, i requires 0 <= i < |v| => if i % 2 == 0 then Right3(v[i], v[i + 1]) else Right3(v[i], 0))
  }

  function Right3(low: bv8, high: bv8): bv8 {
    (low >> 3) | (high << 5)
  }

  function And(v: Bytes, mask: bv8): Bytes {
    seq(|v|, i requires 0 <= i < |v| => v[i] & mask)
  }

  /** unpacklo_epi8 (half 0) and unpackhi_epi8 (half 1) on 128 bits. */
  function Unpack(a: Bytes, b: Bytes, half: nat): (r: Bytes)
    requires |a| == |b| == 16 && half < 2
    ensures |r| == 16
  {
    seq(16, i requires 0 <= i < 16 => if i % 2 == 0 then a[8 * half + i / 2] else b[8 * half + i / 2])
  }

  /** The 256-bit forms work in each 128-bit lane by itself. */
  function Unpack256(a: Bytes, b: Bytes, half: nat): (r: Bytes)
    requires |a| == |b| == 32 && half < 2
    ensures |r| == 32
  {
    Unpack(a[..16], b[..16], half) + Unpack(a[16..], b[16..], half)
  }

  /** shuffle_epi8 of a 16-byte table held in both lanes. */
  function Shuffle(table: Bytes, index: Bytes): Bytes
    requires |table| == 16
  {
    seq(|index|, i requires 0 <= i < |index| => if index[i] & 0x80 != 0 then 0 else Look(table, index[i]))
  }

  /** cvtepu16_epi32, a shift left by 16 and a cast: 16-bit word i becomes the float with that top half. */
  function Widen(v: Bytes): seq<real>
    requires |v| % 2 == 0
  {
    seq(|v| / 2, i requires 0 <= i < |v| / 2 => Bf16(v[2 * i + 1], v[2 * i]))
  }

  /** unpack{lo,hi}_epi16 with zero as the low halves, cast to floats: four words of each lane. */
  function WidenHalf(v: Bytes, half: nat): seq<real>
    requires |v| == 32 && half < 2
  {
    Widen(v[8 * half..8 * half + 8]) + Widen(v[16 + 8 * half..24 + 8 * half])
  }

  function LowNibbles(raw: Bytes): Bytes {
    And(raw, 0x0F)
  }

  function HighNibbles(raw: Bytes): Bytes
    requires |raw| % 2 == 0
  {
    And(ShiftRight16By4(raw), 0x0F)
  }

  lemma NibbleBits(x: bv8, y: bv8)
    ensures Right4(x, y) & 0x0F == x >> 4
    ensures (x >> 4) < 16 && (x & 0x0F) < 16
  {
  }

  /** Masking and shifting a byte vector splits it into even and odd elements. */
  lemma Nibbles(raw: Bytes, i: nat)
    requires |raw| % 2 == 0 && i < |raw|
    ensures |LowNibbles(raw)| == |HighNibbles(raw)| == |raw|
    ensures LowNibbles(raw)[i] == Nibble(raw, 2 * i) < 16 && HighNibbles(raw)[i] == Nibble(raw, 2 * i + 1) < 16
  {
    hide Right4;
    NibbleBits(raw[i], if i % 2 == 0 then raw[i + 1] else 0);
    assert (2 * i + 1) / 2 == i && (2 * i) / 2 == i;
  }

  // ----- Decoding a group of 32 weights, packed in 16 bytes.

  /** The low and high bytes of the bfloat16 patterns of a vector of nibbles. */
  function LoBytes(nibbles: Bytes): (r: Bytes)
    ensures |r| == |nibbles|
  {
    Shuffle(BF16_LO, nibbles)
  }

  function HiBytes(nibbles: Bytes): (r: Bytes)
    ensures |r| == |nibbles|
  {
    Shuffle(BF16_HI, nibbles)
  }

  /** XIAOTU_DECODE_GROUP_AVX512: two registers of 16 floats. */
  function DecodeAvx512(raw: Bytes): (seq<real>, seq<real>)
    requires |raw| == 16
  {
    var lo, hi := LowNibbles(raw), HighNibbles(raw);
    var sel := Unpack(lo, hi, 0) + Unpack(lo, hi, 1);
    var uLo, uHi := Unpack256(LoBytes(sel), HiBytes(sel), 0), Unpack256(LoBytes(sel), HiBytes(sel), 1);
    (Widen(uLo[..16] + uHi[..16]), Widen(uLo[16..] + uHi[16..]))
  }

  /** XIAOTU_DECODE_GROUP of the AVX2 path: four registers of 8 floats. */
  function DecodeAvx2(raw: Bytes): seq<seq<real>>
    requires |raw| == 16
  {
    var v := LowNibbles(raw) + HighNibbles(raw);
    var uA, uB := Unpack256(LoBytes(v), HiBytes(v), 0), Unpack256(LoBytes(v), HiBytes(v), 1);
    [WidenHalf(uA, 0), WidenHalf(uA, 1), WidenHalf(uB, 0), WidenHalf(uB, 1)]
  }

  const K_PERM: seq<nat> := [0, 2, 4, 6, 1, 3, 5, 7, 8, 10, 12, 14, 9, 11, 13, 15,
                             16, 18, 20, 22, 17, 19, 21, 23, 24, 26, 28, 30, 25, 27, 29, 31]

  /** A word whose bytes were looked up for nibble n is E2M1(n). */
  lemma LookedUp(nibbles: Bytes, i: nat)
    requires i < |nibbles| && nibbles[i] < 16
    ensures Bf16(HiBytes(nibbles)[i], LoBytes(nibbles)[i]) == E2M1(nibbles[i])
  {
    TablesAgree(nibbles[i]);
    assert nibbles[i] & 0x80 == 0;
  }

  /** Word i of lane l of an unpack is the pair of bytes 16 * l + 8 * half + i of its operands. */
  lemma UnpackedWord(a: Bytes, b: Bytes, half: nat, l: nat, i: nat)
    requires |a| == |b| == 32 && half < 2 && l < 2 && i < 8
    ensures Unpack256(a, b, half)[16 * l + 2 * i] == a[16 * l + 8 * half + i]
    ensures Unpack256(a, b, half)[16 * l + 2 * i + 1] == b[16 * l + 8 * half + i]
  {
  }

  lemma WidenAt(v: Bytes, i: nat)
    requires |v| % 2 == 0 && i < |v| / 2
    ensures |Widen(v)| == |v| / 2 && Widen(v)[i] == Bf16(v[2 * i + 1], v[2 * i])
  {
  }

  lemma Interleaved(lo: Bytes, hi: Bytes, c: nat)
    requires |lo| == |hi| == 16 && c < 32
    ensures (Unpack(lo, hi, 0) + Unpack(lo, hi, 1))[c] == if c % 2 == 0 then lo[c / 2] else hi[c / 2]
  {
  }

  /** Recombining the lane halves puts the 32 weights into natural order. */
  lemma Avx512IsNatural(raw: Bytes, l: nat, h: nat, i: nat)
    requires |raw| == 16 && l < 2 && h < 2 && i < 8
    ensures var (w0, w1) := DecodeAvx512(raw);
      |w0| == |w1| == 16 && (if l == 0 then w0 else w1)[8 * h + i] == E2M1(Nibble(raw, 16 * l + 8 * h + i))
  {
    hide Bf16, E2M1, LowNibbles, HighNibbles, Nibble, LoBytes, HiBytes, Unpack, Unpack256, Widen;
    var c := 16 * l + 8 * h + i;
    Nibbles(raw, c / 2);
    var lo, hi := LowNibbles(raw), HighNibbles(raw);
    var sel := Unpack(lo, hi, 0) + Unpack(lo, hi, 1);
    Interleaved(lo, hi, c);
    LookedUp(sel, c);
    UnpackedWord(LoBytes(sel), HiBytes(sel), h, l, i);
    var uLo, uHi := Unpack256(LoBytes(sel), HiBytes(sel), 0), Unpack256(LoBytes(sel), HiBytes(sel), 1);
    WidenAt(uLo[..16] + uHi[..16], 8 * h + i);
    WidenAt(uLo[16..] + uHi[16..], 8 * h + i);
  }

  lemma PermAt(o: nat, h: nat, i: nat)
    requires o < 4 && h < 2 && i < 4
    ensures |K_PERM| == 32 && K_PERM[8 * o + 4 * h + i] == 8 * o + 2 * i + h
  {
    if i == 0 { } else if i == 1 { } else if i == 2 { } else { }
  }

  lemma WidenHalfAt(v: Bytes, half: nat, l: nat, i: nat)
    requires |v| == 32 && half < 2 && l < 2 && i < 4
    ensures |WidenHalf(v, half)| == 8
    ensures var at := 16 * l + 8 * half + 2 * i; WidenHalf(v, half)[4 * l + i] == Bf16(v[at + 1], v[at])
  {
    hide Bf16, Widen;
    var a, b := v[8 * half..8 * half + 8], v[16 + 8 * half..24 + 8 * half];
    WidenAt(a, i);
    WidenAt(b, i);
    assert WidenHalf(v, half) == Widen(a) + Widen(b);
    if l == 0 {
      assert (Widen(a) + Widen(b))[i] == Widen(a)[i];
    } else {
      assert (Widen(a) + Widen(b))[4 + i] == Widen(b)[i];
    }
  }

  lemma RegisterAt(v: Bytes, half: nat, quarter: nat, h: nat, i: nat)
    requires |v| == 32 && half < 2 && quarter < 2 && h < 2 && i < 4 && v[16 * h + 8 * half + 4 * quarter + i] < 16
    ensures var w := WidenHalf(Unpack256(LoBytes(v), HiBytes(v), half), quarter);
      |w| == 8 && w[4 * h + i] == E2M1(v[16 * h + 8 * half + 4 * quarter + i])
  {
    hide Bf16, E2M1, LoBytes, HiBytes, Unpack256, WidenHalf;
    LookedUp(v, 16 * h + 8 * half + 4 * quarter + i);
    UnpackedWord(LoBytes(v), HiBytes(v), half, h, 4 * quarter + i);
    WidenHalfAt(Unpack256(LoBytes(v), HiBytes(v), half), quarter, h, i);
  }

  /** The AVX2 path emits the weights in the order K_PERM: register o holds the even, then the odd elements
      of octet o. */
  lemma Avx2IsPermuted(raw: Bytes, o: nat, h: nat, i: nat)
    requires |raw| == 16 && o < 4 && h < 2 && i < 4
    ensures var w, c := DecodeAvx2(raw), 8 * o + 4 * h + i;
      |w| == 4 && |w[o]| == 8 && |K_PERM| == 32 && K_PERM[c] < 32 && w[o][4 * h + i] == E2M1(Nibble(raw, K_PERM[c]))
  {
    hide E2M1, LowNibbles, HighNibbles, Nibble, DecodeAvx2;
    PermAt(o, h, i);
    HalvesNibble(raw, 4 * o + i, h);
    OctetRegister(raw, o, h, i);
  }

  lemma HalvesNibble(raw: Bytes, q: nat, h: nat)
    requires |raw| == 16 && q < 16 && h < 2
    ensures |LowNibbles(raw) + HighNibbles(raw)| == 32
    ensures (LowNibbles(raw) + HighNibbles(raw))[16 * h + q] == Nibble(raw, 2 * q + h) < 16
  {
    hide LowNibbles, HighNibbles, Nibble;
    Nibbles(raw, q);
  }

  lemma OctetRegister(raw: Bytes, o: nat, h: nat, i: nat)
    requires |raw| == 16 && o < 4 && h < 2 && i < 4
    requires |LowNibbles(raw) + HighNibbles(raw)| == 32 && (LowNibbles(raw) + HighNibbles(raw))[16 * h + 4 * o + i] < 16
    ensures var w := DecodeAvx2(raw);
      |w| == 4 && |w[o]| == 8 && w[o][4 * h + i] == E2M1((LowNibbles(raw) + HighNibbles(raw))[16 * h + 4 * o + i])
  {
    hide E2M1, LowNibbles, HighNibbles, LoBytes, HiBytes, Unpack256, WidenHalf;
    RegisterAt(LowNibbles(raw) + HighNibbles(raw), o / 2, o % 2, h, i);
  }

  // ----- Decoding 8 weights from 4 bytes, as the general AVX2 path does.

  /** Nibble indices split into magnitude and sign, each looked up by itself. */
  function DecodeGeneral(raw: Bytes): seq<real>
    requires |raw| == 4
  {
    var b := raw + seq(12, _ => 0);
    var nib := Unpack(LowNibbles(b), HighNibbles(b), 0);
    var s3 := ShiftRight16By3(nib);
    seq(8, t requires 0 <= t < 8 => Magnitude(nib[t]) * Sign(s3[t]))
  }

  function Magnitude(nib: bv8): real {
    MAG_TABLE[(nib & 7) as nat]
  }

  function Sign(shifted: bv8): real {
    if shifted & 1 == 0 then 1.0 else -1.0
  }

  lemma SignBit(x: bv8, y: bv8)
    requires x < 16
    ensures Sign(Right3(x, y)) == if x & 8 == 0 then 1.0 else -1.0
  {
    assert Right3(x, y) & 1 == 0 <==> x & 8 == 0;
  }

  lemma GeneralIsNatural(raw: Bytes, t: nat)
    requires |raw| == 4 && t < 8
    ensures |DecodeGeneral(raw)| == 8 && DecodeGeneral(raw)[t] == E2M1(Nibble(raw, t))
  {
    hide LowNibbles, HighNibbles, Nibble, Magnitude, Sign, E2M1, Unpack, Right3;
    var b := raw + seq(12, _ => 0);
    Nibbles(b, t / 2);
    var lo, hi := LowNibbles(b), HighNibbles(b);
    UnpackedAt(lo, hi, t);
    var nib := Unpack(lo, hi, 0);
    SameNibble(raw, b, t);
    assert nib[t] == Nibble(raw, t) < 16;
    SignBit(nib[t], if t % 2 == 0 then nib[t + 1] else 0);
    MagnitudeIs(nib[t]);
  }

  lemma UnpackedAt(a: Bytes, b: Bytes, t: nat)
    requires |a| == |b| == 16 && t < 8
    ensures Unpack(a, b, 0)[t] == if t % 2 == 0 then a[t / 2] else b[t / 2]
  {
  }

  lemma SameNibble(a: Bytes, b: Bytes, t: nat)
    requires a <= b && t / 2 < |a|
    ensures Nibble(a, t) == Nibble(b, t)
  {
  }

  lemma MagnitudeIs(n: bv8)
    requires n < 16
    ensures Magnitude(n) * (if n & 8 == 0 then 1.0 else -1.0) == E2M1(n)
  {
    TablesAgree(n);
  }
}
