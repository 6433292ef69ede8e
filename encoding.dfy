/** Integer helpers of the encoder.

    The assembler works on unbounded Python ints and narrows them with `&`, `|`
    and `>>`. Here those operators are written on `nat` bit by bit
    (BitAnd, BitOr), and the masks the encoder applies are written
    arithmetically (Mask8, Mask16, HighByte). The lemmas at the end show that
    the two agree on non-negative operands. For negative operands, the
    arithmetic form is the one that matches Python: its `&` acts on an
    infinite two's-complement representation, so `v & 0xFF` is v modulo 256,
    never negative, which is what Dafny's `%` gives for a positive modulus. */
module Encoding {

  /** A value the output image can hold in one byte. */
  type Byte = b: int | 0 <= b < 256

  function Pow2(k: nat): (p: nat)
    ensures p >= 1
  {
    if k == 0 then 1 else 2 * Pow2(k - 1)
  }

  /** Python's `a | b` on non-negative ints, least significant bit first. */
  function BitOr(a: nat, b: nat): nat
  {
    if a == 0 then b
    else if b == 0 then a
    else 2 * BitOr(a / 2, b / 2) + (if a % 2 == 1 || b % 2 == 1 then 1 else 0)
  }

  /** Python's `a & b` on non-negative ints, least significant bit first. */
  function BitAnd(a: nat, b: nat): nat
  {
    if a == 0 || b == 0 then 0
    else 2 * BitAnd(a / 2, b / 2) + (if a % 2 == 1 && b % 2 == 1 then 1 else 0)
  }

  /** `a | b` is at least each operand and at most their sum. */
  lemma {:induction false} BitOrBounds(a: nat, b: nat)
    ensures a <= BitOr(a, b) && b <= BitOr(a, b) && BitOr(a, b) <= a + b
  {
    if a != 0 && b != 0 {
      BitOrBounds(a / 2, b / 2);
    }
  }

  /** `a & b` is at most each operand. */
  lemma {:induction false} BitAndBounds(a: nat, b: nat)
    ensures BitAnd(a, b) <= a && BitAnd(a, b) <= b
  {
    if a != 0 && b != 0 {
      BitAndBounds(a / 2, b / 2);
    }
  }

  /** `v & 0xFF`: the byte congruent to v modulo 256 (this is `_byte`). */
  function Mask8(v: int): (b: Byte)
    ensures (v - b) % 256 == 0
  {
    v % 256
  }

  /** `v & 0xFFFF`: the 16-bit value congruent to v modulo 65536. */
  function Mask16(v: int): (w: int)
    ensures 0 <= w < 0x10000 && (v - w) % 0x10000 == 0
  {
    v % 0x10000
  }

  /** `(v & 0xFF00) >> 8`: bits 8 to 15 of v. */
  function HighByte(v: int): (b: Byte)
  {
    (v / 256) % 256
  }

  /** `_word`: a value as two bytes, least significant first. */
  function Word(v: int): (w: seq<Byte>)
    ensures |w| == 2 && w[0] == Mask8(v)
    ensures Decode16(w[0], w[1]) == Mask16(v)
  {
    WordSplit(v);
    [Mask8(v), HighByte(v)]
  }

  /** Reads two bytes back as a little-endian 16-bit value. */
  function Decode16(lo: Byte, hi: Byte): (v: int)
    ensures 0 <= v < 0x10000
  {
    lo + 256 * hi
  }

  /** The byte read back as an 8086 signed displacement, -128 .. 127. */
  function Signed8(b: Byte): (d: int)
    ensures -128 <= d < 128 && Mask8(d) == b
  {
    if b < 128 then b else b - 256
  }

  /** A jump distance in -128 .. 127 survives masking to a byte. */
  lemma Signed8OfMask8(d: int)
    requires -128 <= d < 128
    ensures Signed8(Mask8(d)) == d
  {
  }

  /** Two bytes written by Word decode to the value itself when it fits 16 bits. */
  lemma WordRoundTrip(v: int)
    requires 0 <= v < 0x10000
    ensures Decode16(Word(v)[0], Word(v)[1]) == v
  {
    DivModUnique(v, 0x10000, 0, v);
  }

  /** Masking a value that already fits changes nothing. */
  lemma Mask8Identity(v: int)
    requires 0 <= v < 256
    ensures Mask8(v) == v
  {
  }

  /** Euclidean division has a unique quotient and remainder. */
  lemma DivModUnique(v: int, d: int, q: int, s: int)
    requires d >= 1 && v == q * d + s && 0 <= s < d
    ensures v / d == q && v % d == s
  {
    var x: int := q - v / d;
    assert x * d == v % d - s;
    assert -d < x * d < d;
  }

  lemma WordSplit(v: int)
    ensures Mask8(v) + 256 * HighByte(v) == Mask16(v)
  {
    var q, r := v / 256, v % 256;
    var u, t := q / 256, q % 256;
    assert v == 256 * q + r;
    assert q == 256 * u + t;
    assert v == u * 0x10000 + (256 * t + r);
    DivModUnique(v, 0x10000, u, 256 * t + r);
  }

  /** Halving commutes with division and remainder by a further divisor. */
  lemma DivModHalve(v: nat, p: nat)
    requires p >= 1
    ensures (v / 2) / p >= 0
    ensures v % (2 * p) == 2 * ((v / 2) % p) + v % 2
    ensures v / (2 * p) == (v / 2) / p
  {
    var q := (v / 2) / p;
    var s := (v / 2) % p;
    assert v / 2 == q * p + s;
    assert q * (2 * p) == 2 * (q * p);
    assert v == q * (2 * p) + (2 * s + v % 2);
    DivModUnique(v, 2 * p, q, 2 * s + v % 2);
  }

  /** An OR into bits that are clear is an addition: `base | r == base + r`. */
  lemma {:induction false} BitOrAligned(h: nat, r: nat, k: nat)
    requires r < Pow2(k)
    ensures BitOr(h * Pow2(k), r) == h * Pow2(k) + r
  {
    if k > 0 {
      var p := Pow2(k - 1);
      assert h * Pow2(k) == 2 * (h * p);
      if h * p != 0 && r != 0 {
        BitOrAligned(h, r / 2, k - 1);
      }
    }
  }

  /** `v & (2^k - 1)` keeps the k low bits: it is v modulo 2^k. */
  lemma {:induction false} BitAndLowMask(v: nat, k: nat)
    ensures BitAnd(v, Pow2(k) - 1) == v % Pow2(k)
  {
    if k == 0 {
    } else if v == 0 {
    } else {
      BitAndLowMask(v / 2, k - 1);
      BitAndOddMask(v, k);
      DivModHalve(v, Pow2(k - 1));
    }
  }

  /** A mask of k ones meets bit 0 of v and then k - 1 ones of v / 2. */
  lemma BitAndOddMask(v: nat, k: nat)
    requires k > 0 && v > 0
    ensures BitAnd(v, Pow2(k) - 1) == 2 * BitAnd(v / 2, Pow2(k - 1) - 1) + v % 2
  {
    var p := Pow2(k - 1);
    var m := Pow2(k) - 1;
    assert m / 2 == p - 1 && m % 2 == 1 && m != 0;
  }

  /** An even mask ignores bit 0: `v & (m << 1) == ((v >> 1) & m) << 1`. */
  lemma BitAndEven(v: nat, m: nat)
    ensures BitAnd(v, 2 * m) == 2 * BitAnd(v / 2, m)
  {
  }

  /** The arithmetic masks agree with Python's bitwise operators on non-negative ints. */
  lemma MasksAreBitwise(v: nat)
    ensures Mask8(v) == BitAnd(v, 0xFF)
    ensures Mask16(v) == BitAnd(v, 0xFFFF)
    ensures HighByte(v) == BitAnd(v, 0xFF00) / 256
  {
    assert Pow2(8) == 256 && Pow2(16) == 0x10000;
    BitAndLowMask(v, 8);
    BitAndLowMask(v, 16);
    HighByteIsBitAnd(v);
  }

  lemma HighByteIsBitAnd(v: nat)
    ensures BitAnd(v, 0xFF00) == 256 * HighByte(v)
  {
    assert Pow2(8) == 256;
    BitAndLowMask(v / 256, 8);
    var m := 0xFF;
    var b := BitAnd(v / 256, m);
    BitAndEven(v / 128, m);
    assert (v / 128) / 2 == v / 256;
    BitAndEven(v / 64, 2 * m);
    assert (v / 64) / 2 == v / 128;
    BitAndEven(v / 32, 4 * m);
    assert (v / 32) / 2 == v / 64;
    BitAndEven(v / 16, 8 * m);
    assert (v / 16) / 2 == v / 32;
    BitAndEven(v / 8, 16 * m);
    assert (v / 8) / 2 == v / 16;
    BitAndEven(v / 4, 32 * m);
    assert (v / 4) / 2 == v / 8;
    BitAndEven(v / 2, 64 * m);
    assert (v / 2) / 2 == v / 4;
    BitAndEven(v, 128 * m);
  }

  /** `base | r` where the base's low nibble is clear and r fits a nibble adds them. */
  lemma OrLowNibble(base: nat, r: nat)
    requires base % 16 == 0 && r < 16
    ensures BitOr(base, r) == base + r
  {
    assert Pow2(4) == 16;
    BitOrAligned(base / 16, r, 4);
  }
}
