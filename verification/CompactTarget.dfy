/**
 The compact `bits` form of a proof-of-work target: one exponent byte and a 23-bit mantissa.
 */
module CompactTarget {
  import opened Wrappers
  import opened Powers

  /** Largest mantissa whose sign bit is clear. */
  const MAX_MANTISSA: nat := 0x7F_FFFF

  ghost predicate IsU32(n: nat) {
    n < 0x1_0000_0000
  }

  const WORD_BITS: nat := 256

  /** The wrap-around of 256-bit arithmetic. */
  function Modulus(): (r: nat)
    ensures r >= 1
  {
    Pow2(WORD_BITS)
  }

  ghost predicate IsU256(n: nat) {
    n < Modulus()
  }

  /** A 256-bit left shift; what leaves the word is dropped. */
  function ShiftLeft(n: nat, k: nat): (r: nat)
    ensures IsU256(r)
  {
    (n * Pow2(k)) % Modulus()
  }

  function ShiftRight(n: nat, k: nat): (r: nat)
    ensures r <= n
  {
    DivAtMost(n, Pow2(k));
    n / Pow2(k)
  }

  /** The target that `bits` stand for; a mantissa with the sign bit set stands for 0, and a shift
      drops what leaves the 256 bits. */
  function DecodeBits(bits: nat): (target: nat) {
    var size := bits / 0x100_0000;
    var mantissa := bits % 0x100_0000;
    if mantissa > MAX_MANTISSA then 0
    else if size <= 3 then ShiftRight(mantissa, 8 * (3 - size))
    else ShiftLeft(mantissa, 8 * (size - 3))
  }

  /** What any bits stand for, canonical or not, with `m` the low three bytes and `e` the rest: 0 when the sign
      bit is set, m / 256^(3 - e) rounded down, or m * 256^(e - 3) modulo 2^256. */
  lemma DecodeAny(bits: nat)
    ensures var e, m := bits / 0x100_0000, bits % 0x100_0000;
      DecodeBits(bits) ==
        if m >= 0x80_0000 then 0
        else if e <= 3 then m / Pow2(24 - 8 * e)
        else m * Pow2(8 * e - 24) % Pow2(256)
  {
    hide Pow2;
    assert forall e: nat :: e <= 3 ==> 8 * (3 - e) == 24 - 8 * e;
  }

  function BitsToTarget(bits: nat): Bytes32 {
    ToBigEndian(DecodeBits(bits), 32)
  }

  /** The compact form of a 32-byte target; `None` when one of the byte accesses is out of range. */
  function TargetToBits(target: Bytes32): Option<nat> {
    TargetBitsBound(target);
    var size := (263 - Bits(BigEndian(target))) / 8;
    if size == 0 || size + 1 >= 32 then None
    else Some(BigEndian([33 - size, target[size - 1], target[size], target[size + 1]]))
  }

  lemma TargetBitsBound(target: Bytes32)
    ensures IsU256(BigEndian(target)) && Bits(BigEndian(target)) <= 256
  {
    BigEndianBound(target);
    if BigEndian(target) > 0 {
      BitsBelow(BigEndian(target), WORD_BITS);
    }
  }

  /** Exponent byte of a target of `b` bits. */
  function Exponent(b: nat): nat
    requires 16 <= b <= 255
  {
    33 - (263 - b) / 8
  }

  /** Compact forms the encoder produces: exponent 3..32 and a mantissa of exactly 16 to 23 bits. */
  predicate Canonical(bits: nat) {
    3 <= bits / 0x100_0000 <= 32 && 0x8000 <= bits % 0x100_0000 <= MAX_MANTISSA
  }

  /** Targets of 16 to 255 bits. */
  ghost predicate Encodable(t: nat) {
    16 <= Bits(t) <= 255
  }

  /** Encoding goes out of range exactly for targets below 16 or above 255 bits. */
  lemma EncodableIff(target: Bytes32)
    ensures TargetToBits(target).Some? <==> Encodable(BigEndian(target))
  {
    hide Bits, BigEndian;
    TargetBitsBound(target);
    var b := Bits(BigEndian(target));
    assert ((263 - b) / 8 == 0 || (263 - b) / 8 + 1 >= 32) <==> !(16 <= b <= 255);
  }

  lemma ExponentWindow(t: nat)
    requires Encodable(t)
    ensures var e := Exponent(Bits(t));
      3 <= e <= 32 && 0x8000 * Pow2(8 * (e - 3)) <= t < 0x80_0000 * Pow2(8 * (e - 3))
  {
    assert t > 0;
    BitsBound(t);
    Window(t, Bits(t));
  }

  lemma Window(t: nat, b: nat)
    requires 16 <= b <= 255 && Pow2(b - 1) <= t < Pow2(b)
    ensures var e := Exponent(b);
      0x8000 * Pow2(8 * (e - 3)) <= t < 0x80_0000 * Pow2(8 * (e - 3))
  {
    hide Pow2;
    var k := 8 * (Exponent(b) - 3);
    assert 15 + k <= b - 1 && b <= 23 + k;
    Pow2Values();
    Pow2Add(15, k);
    Pow2Add(23, k);
    Pow2Monotone(15 + k, b - 1);
    Pow2Monotone(b, 23 + k);
  }

  /** The mantissa is the target shifted right, with its top bit free: 2^15 <= mantissa < 2^23. */
  lemma EncodedValue(target: Bytes32)
    requires Encodable(BigEndian(target))
    ensures var t := BigEndian(target);
      var e := Exponent(Bits(t));
      var m := t / Pow2(8 * (e - 3));
      && 3 <= e <= 32 && 0x8000 <= m <= MAX_MANTISSA
      && TargetToBits(target) == Some(e * 0x100_0000 + m)
  {
    hide Pow2, Bits;
    var t := BigEndian(target);
    ExponentWindow(t);
    var e := Exponent(Bits(t));
    var size := 33 - e;
    var d := Pow2(8 * (e - 3));
    Pow2Values();
    DivBounds(t, d, 0x8000, 0x80_0000);
    var m := t / d;
    BigEndianPrefix(target, size + 2);
    assert 8 * (32 - (size + 2)) == 8 * (e - 3);
    LastThree(target[..size + 2]);
    FourBytes(33 - size, target[size - 1], target[size], target[size + 1]);
  }

  lemma FourBytes(a: Byte, b: Byte, c: Byte, d: Byte)
    ensures BigEndian([a, b, c, d]) == a as nat * 0x100_0000 + b as nat * 0x1_0000 + c as nat * 256 + d as nat
  {
    assert [a, b, c, d][..3] == [a, b, c];
    assert [a, b, c][..2] == [a, b];
    assert [a, b][..1] == [a];
    assert BigEndian([a]) == a as nat by { assert [a][..0] == []; }
    assert BigEndian([a, b]) == 256 * a as nat + b as nat;
    assert BigEndian([a, b, c]) == 256 * BigEndian([a, b]) + c as nat;
  }

  /** When everything above the last three bytes is zero, they are the value. */
  lemma LastThree(s: seq<Byte>)
    requires |s| >= 3 && BigEndian(s) < 0x100_0000
    ensures BigEndian(s) == s[|s| - 3] as nat * 0x1_0000 + s[|s| - 2] as nat * 256 + s[|s| - 1] as nat
  {
    var s1 := s[..|s| - 1];
    var s2 := s1[..|s1| - 1];
    assert BigEndian(s) == 256 * BigEndian(s1) + s[|s| - 1];
    assert BigEndian(s1) == 256 * BigEndian(s2) + s[|s| - 2];
    assert BigEndian(s2) == 256 * BigEndian(s2[..|s2| - 1]) + s[|s| - 3];
  }

  lemma ShiftByZero(m: nat)
    ensures Pow2(0) == 1 && ShiftRight(m, 0) == m
  {
  }

  /** Decoding canonical bits needs no truncation. */
  lemma DecodeCanonical(bits: nat)
    requires Canonical(bits)
    ensures var e, m := bits / 0x100_0000, bits % 0x100_0000;
      DecodeBits(bits) == m * Pow2(8 * (e - 3)) && Encodable(DecodeBits(bits))
  {
    hide Pow2, Bits, ShiftRight;
    var e, m := bits / 0x100_0000, bits % 0x100_0000;
    var d := Pow2(8 * (e - 3));
    Pow2Values();
    Pow2Add(15, 8 * (e - 3));
    Pow2Add(23, 8 * (e - 3));
    Pow2Monotone(23 + 8 * (e - 3), WORD_BITS);
    MulMonotone(m, 0x80_0000, d);
    SameExponent(m * d, e, m);
    if e > 3 {
      DivUnique(m * d, Modulus(), 0, m * d);
    } else {
      ShiftByZero(m);
    }
  }

  /** Every compact form decodes to a 256-bit number. */
  lemma DecodeIsU256(bits: nat)
    ensures IsU256(DecodeBits(bits)) && BigEndian(BitsToTarget(bits)) == DecodeBits(bits)
  {
    hide Pow2, ShiftRight, ShiftLeft;
    Pow2Values();
    Pow2Monotone(24, WORD_BITS);
    ToBigEndianValue(DecodeBits(bits), 32);
  }

  /** Decoding an encoded target rounds it down by less than one part in 2^15, and what the encoder
      yields is canonical. */
  lemma RoundTrip(target: Bytes32)
    requires Encodable(BigEndian(target))
    ensures TargetToBits(target).Some?
    ensures var t := BigEndian(target);
      var bits := TargetToBits(target).value;
      var d := DecodeBits(bits);
      Canonical(bits) && IsU32(bits) && d <= t && (t - d) * 0x8000 < d
  {
    hide Pow2, TargetToBits, DecodeBits, Bits, BigEndian;
    EncodedValue(target);
    var t := BigEndian(target);
    var e := Exponent(Bits(t));
    var unit := Pow2(8 * (e - 3));
    var m := t / unit;
    var bits := e * 0x100_0000 + m;
    DivUnique(bits, 0x100_0000, e, m);
    DecodeCanonical(bits);
    assert m * unit <= t < m * unit + unit;
    RoundingError(t, unit, m);
  }

  lemma RoundingError(t: nat, unit: nat, m: nat)
    requires unit > 0 && m >= 0x8000 && m * unit <= t < m * unit + unit
    ensures (t - m * unit) * 0x8000 < m * unit
  {
    MulMonotone(0x8000, m, unit);
  }

  /** Re-encoding the target of any canonical compact form gives the same form back. */
  lemma ReencodeCanonical(bits: nat)
    requires Canonical(bits)
    ensures TargetToBits(BitsToTarget(bits)) == Some(bits)
  {
    hide Pow2, TargetToBits, DecodeBits, Bits, BigEndian, ToBigEndian;
    var e, m := bits / 0x100_0000, bits % 0x100_0000;
    var unit := Pow2(8 * (e - 3));
    var t := DecodeBits(bits);
    DecodeCanonical(bits);
    DecodeIsU256(bits);
    ToBigEndianValue(t, 32);
    EncodedValue(BitsToTarget(bits));
    SameExponent(t, e, m);
    DivUnique(t, unit, m, 0);
  }

  lemma SameExponent(t: nat, e: nat, m: nat)
    requires 3 <= e <= 32 && 0x8000 <= m <= MAX_MANTISSA && t == m * Pow2(8 * (e - 3))
    ensures 16 <= Bits(t) <= 255 && Exponent(Bits(t)) == e
  {
    hide Pow2, Bits;
    Pow2Values();
    Pow2Add(15, 8 * (e - 3));
    Pow2Add(23, 8 * (e - 3));
    var d := Pow2(8 * (e - 3));
    MulMonotone(0x8000, m, d);
    MulMonotone(m, 0x80_0000, d);
    BitsBetween(t, 15 + 8 * (e - 3), 23 + 8 * (e - 3));
  }

  /** A larger target never has smaller compact bits. */
  lemma EncodingMonotone(a: Bytes32, b: Bytes32)
    requires Encodable(BigEndian(a)) && Encodable(BigEndian(b)) && BigEndian(a) <= BigEndian(b)
    ensures TargetToBits(a).Some? && TargetToBits(b).Some?
    ensures TargetToBits(a).value <= TargetToBits(b).value
  {
    hide Pow2, TargetToBits, Bits, BigEndian, Exponent;
    var t, u := BigEndian(a), BigEndian(b);
    EncodedValue(a);
    EncodedValue(b);
    BitsMonotone(t, u);
    var e, f := Exponent(Bits(t)), Exponent(Bits(u));
    assert e <= f by {
      ExponentMonotone(Bits(t), Bits(u));
    }
    if e == f {
      DivMonotone(t, u, Pow2(8 * (e - 3)));
    }
  }

  lemma ExponentMonotone(b: nat, c: nat)
    requires 16 <= b <= c <= 255
    ensures Exponent(b) <= Exponent(c)
  {
  }

  /** Decoding is monotone on canonical forms, so the compact order is the order of targets. */
  lemma DecodeMonotone(x: nat, y: nat)
    requires Canonical(x) && Canonical(y) && x <= y
    ensures DecodeBits(x) <= DecodeBits(y)
  {
    hide Pow2, DecodeBits;
    var e, m, f, n := x / 0x100_0000, x % 0x100_0000, y / 0x100_0000, y % 0x100_0000;
    DecodeCanonical(x);
    DecodeCanonical(y);
    if e == f {
      MulMonotone(m, n, Pow2(8 * (e - 3)));
    } else {
      LargerExponentWins(e, m, f, n);
    }
  }

  lemma LargerExponentWins(e: nat, m: nat, f: nat, n: nat)
    requires 3 <= e < f && m <= MAX_MANTISSA && 0x8000 <= n
    ensures m * Pow2(8 * (e - 3)) <= n * Pow2(8 * (f - 3))
  {
    hide Pow2;
    var unit := Pow2(8 * (e - 3));
    Pow2Values();
    Pow2Add(8 * (e - 3), 8);
    Pow2Monotone(8 * (e - 3) + 8, 8 * (f - 3));
    MulMonotone(m, 0x80_0000, unit);
    MulMonotone(0x8000, n, Pow2(8 * (f - 3)));
  }
}
