/**
 Powers of two, bit lengths and byte strings: the arithmetic under 256-bit targets.
 */
module Powers {

  function Pow2(n: nat): (r: nat)
    ensures r >= 1
  {
    if n == 0 then 1 else 2 * Pow2(n - 1)
  }

  lemma {:induction false} Pow2Add(a: nat, b: nat)
    ensures Pow2(a + b) == Pow2(a) * Pow2(b)
    decreases b
  {
    if b == 0 {
    } else {
      Pow2Add(a, b - 1);
      assert Pow2(a + b) == 2 * Pow2(a + (b - 1));
    }
  }

  lemma {:induction false} Pow2Monotone(a: nat, b: nat)
    requires a <= b
    ensures Pow2(a) <= Pow2(b)
    ensures a < b ==> 2 * Pow2(a) <= Pow2(b)
    decreases b
  {
    if a == b {
    } else {
      Pow2Monotone(a, b - 1);
    }
  }

  /** Literal values of the powers the encoding speaks of. */
  lemma Pow2Values()
    ensures Pow2(8) == 0x100 && Pow2(15) == 0x8000 && Pow2(16) == 0x1_0000
    ensures Pow2(23) == 0x80_0000 && Pow2(24) == 0x100_0000 && Pow2(32) == 0x1_0000_0000
  {
    assert Pow2(4) == 16;
    assert Pow2(8) == 0x100;
    assert Pow2(12) == 0x1000;
    assert Pow2(15) == 0x8000;
    assert Pow2(16) == 0x1_0000;
    assert Pow2(20) == 0x10_0000;
    assert Pow2(23) == 0x80_0000;
    assert Pow2(24) == 0x100_0000;
    assert Pow2(28) == 0x1000_0000;
  }

  // ----- multiplication and division

  /** Multiplication by name, so that a proof can treat products as atoms. */
  function Mul(a: int, b: int): (r: int)
    ensures a >= 0 && b >= 0 ==> r >= 0
  {
    a * b
  }

  lemma MulStep(a: int, d: nat)
    ensures Mul(a + 1, d) == Mul(a, d) + d
  {
  }

  lemma {:induction false} MulGap(a: int, b: int, d: nat)
    requires a < b
    ensures Mul(a, d) + d <= Mul(b, d)
    decreases b - a
  {
    hide Mul;
    MulStep(b - 1, d);
    if b == a + 1 {
    } else {
      MulGap(a, b - 1, d);
    }
  }

  lemma MulAtLeast(q: nat, d: nat)
    requires d > 0
    ensures q <= Mul(q, d) && Mul(0, d) == 0
  {
  }

  lemma DivMod(a: int, d: nat)
    requires d > 0
    ensures a == Mul(a / d, d) + a % d && 0 <= a % d < d
  {
  }

  lemma MulMonotone(a: nat, b: nat, d: nat)
    requires d > 0
    ensures a <= b ==> a * d <= b * d
    ensures a < b ==> a * d < b * d && a * d + d <= b * d
  {
    if a < b {
      MulGap(a, b, d);
    }
  }

  /** At most one quotient leaves a remainder below the divisor. */
  lemma QuotientsAgree(q: int, r: nat, p: int, s: nat, d: nat)
    requires d > 0 && r < d && s < d && Mul(q, d) + r == Mul(p, d) + s
    ensures q == p && r == s
  {
    hide Mul;
    if q < p {
      MulGap(q, p, d);
    } else if p < q {
      MulGap(p, q, d);
    }
  }

  lemma DivUnique(a: nat, d: nat, q: nat, r: nat)
    requires d > 0 && r < d && a == q * d + r
    ensures a / d == q && a % d == r
  {
    assert a == Mul(q, d) + r;
    hide Mul;
    DivMod(a, d);
    QuotientsAgree(q, r, a / d, a % d, d);
  }

  lemma DivAtMost(a: nat, d: nat)
    requires d > 0
    ensures 0 <= a / d <= a
  {
    hide Mul;
    DivMod(a, d);
    MulAtLeast(0, d);
    if a / d < 0 {
      MulGap(a / d, 0, d);
    } else {
      MulAtLeast(a / d, d);
    }
  }

  lemma DivMonotone(a: nat, b: nat, d: nat)
    requires a <= b && d > 0
    ensures a / d <= b / d
  {
    hide Mul;
    DivMod(a, d);
    DivMod(b, d);
    if b / d < a / d {
      MulGap(b / d, a / d, d);
    }
  }

  /** Dividing a bounded number: lo * d <= a < hi * d gives lo <= a / d < hi. */
  lemma DivBounds(a: nat, d: nat, lo: nat, hi: nat)
    requires d > 0 && lo * d <= a < hi * d
    ensures lo <= a / d < hi
    ensures (a / d) * d <= a < (a / d) * d + d
  {
    assert Mul(lo, d) <= a < Mul(hi, d);
    DivMod(a, d);
    assert a / d * d == Mul(a / d, d);
    hide Mul;
    if a / d < lo {
      MulGap(a / d, lo, d);
    } else if a / d > hi {
      MulGap(hi, a / d, d);
    }
  }

  // ----- bit length

  /** Number of bits of `t` without leading zeros. */
  function Bits(t: nat): nat {
    if t == 0 then 0 else 1 + Bits(t / 2)
  }

  lemma {:induction false} BitsBound(t: nat)
    ensures t < Pow2(Bits(t))
    ensures t > 0 ==> Bits(t) > 0 && Pow2(Bits(t) - 1) <= t
  {
    if t == 0 {
    } else {
      BitsBound(t / 2);
    }
  }

  lemma BitsBetween(t: nat, lo: nat, hi: nat)
    requires Pow2(lo) <= t < Pow2(hi)
    ensures lo < Bits(t) <= hi
  {
    BitsBound(t);
    if Bits(t) <= lo {
      Pow2Monotone(Bits(t), lo);
    }
    if Bits(t) > hi {
      Pow2Monotone(hi, Bits(t) - 1);
    }
  }

  lemma BitsBelow(t: nat, hi: nat)
    requires 0 < t < Pow2(hi)
    ensures Bits(t) <= hi
  {
    BitsBound(t);
    if Bits(t) > hi {
      Pow2Monotone(hi, Bits(t) - 1);
    }
  }

  lemma BitsMonotone(a: nat, b: nat)
    requires a <= b
    ensures Bits(a) <= Bits(b)
  {
    BitsBound(b);
    if a > 0 {
      BitsBelow(a, Bits(b));
    }
  }

  // ----- bytes

  type Byte = b: nat | b < 256

  type Bytes32 = s: seq<Byte> | |s| == 32 witness seq(32, i => 0)

  const ZERO: Bytes32 := [
    0, 0, 0, 0, 0, 0, 0, 0, 0, 0, 0, 0, 0, 0, 0, 0,
    0, 0, 0, 0, 0, 0, 0, 0, 0, 0, 0, 0, 0, 0, 0, 0]

  /** Value of a big-endian byte string. */
  function BigEndian(s: seq<Byte>): nat {
    if s == [] then 0 else 256 * BigEndian(s[..|s| - 1]) + s[|s| - 1]
  }

  /** Value of a little-endian byte string. */
  function LittleEndian(s: seq<Byte>): nat {
    if s == [] then 0 else s[0] + 256 * LittleEndian(s[1..])
  }

  /** The low `len` bytes of `n`, most significant first. */
  function ToBigEndian(n: nat, len: nat): (s: seq<Byte>)
    ensures |s| == len
  {
    if len == 0 then [] else ToBigEndian(n / 256, len - 1) + [n % 256]
  }

  lemma {:induction false} BigEndianBound(s: seq<Byte>)
    ensures BigEndian(s) < Pow2(8 * |s|)
  {
    if s == [] {
    } else {
      BigEndianBound(s[..|s| - 1]);
      Pow2Add(8 * (|s| - 1), 8);
      Pow2Values();
      assert 8 * |s| == 8 * (|s| - 1) + 8;
    }
  }

  lemma {:induction false} BigEndianConcat(a: seq<Byte>, b: seq<Byte>)
    ensures BigEndian(a + b) == BigEndian(a) * Pow2(8 * |b|) + BigEndian(b)
    decreases |b|
  {
    if b == [] {
      assert a + b == a;
    } else {
      var b' := b[..|b| - 1];
      assert (a + b)[..|a + b| - 1] == a + b';
      BigEndianConcat(a, b');
      Pow2Add(8 * |b'|, 8);
      Pow2Values();
      assert 8 * |b| == 8 * |b'| + 8;
      ShiftByte(BigEndian(a), Pow2(8 * |b'|), BigEndian(b'), b[|b| - 1]);
    }
  }

  lemma ShiftByte(x: nat, p: nat, y: nat, z: nat)
    ensures 256 * (x * p + y) + z == x * (p * 256) + (256 * y + z)
  {
    assert 256 * (x * p) == x * (p * 256);
  }

  /** A leading part of a byte string is the value shifted right. */
  lemma BigEndianPrefix(s: seq<Byte>, k: nat)
    requires k <= |s|
    ensures BigEndian(s[..k]) == BigEndian(s) / Pow2(8 * (|s| - k))
  {
    assert s == s[..k] + s[k..];
    BigEndianConcat(s[..k], s[k..]);
    BigEndianBound(s[k..]);
    DivUnique(BigEndian(s), Pow2(8 * (|s| - k)), BigEndian(s[..k]), BigEndian(s[k..]));
  }

  lemma {:induction false} ToBigEndianValue(n: nat, len: nat)
    requires n < Pow2(8 * len)
    ensures BigEndian(ToBigEndian(n, len)) == n
    decreases len
  {
    if len == 0 {
    } else {
      Pow2Add(8 * (len - 1), 8);
      Pow2Values();
      assert 8 * len == 8 * (len - 1) + 8;
      DivBounds(n, 256, 0, Pow2(8 * (len - 1)));
      ToBigEndianValue(n / 256, len - 1);
      var s := ToBigEndian(n, len);
      assert s[..|s| - 1] == ToBigEndian(n / 256, len - 1);
    }
  }
}
