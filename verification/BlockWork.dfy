/**
 Proof of work: comparing a hash with a target, the work a target stands for, and retargeting.
 */
module BlockWork {
  import opened Powers
  import opened CompactTarget

  // ----- hash against target

  lemma {:induction false} LittleEndianReversed(s: seq<Byte>, r: seq<Byte>)
    requires |r| == |s| && forall i :: 0 <= i < |s| ==> r[i] == s[|s| - 1 - i]
    ensures LittleEndian(s) == BigEndian(r)
    decreases |s|
  {
    if s == [] {
    } else {
      LittleEndianReversed(s[1..], r[..|r| - 1]);
    }
  }

  /** The first differing byte decides. */
  lemma FirstDifference(a: seq<Byte>, b: seq<Byte>, i: nat)
    requires |a| == |b| && i < |a| && a[..i] == b[..i] && a[i] < b[i]
    ensures BigEndian(a) < BigEndian(b)
  {
    var d := Pow2(8 * (|a| - (i + 1)));
    assert a == a[..i + 1] + a[i + 1..] && b == b[..i + 1] + b[i + 1..];
    BigEndianConcat(a[..i + 1], a[i + 1..]);
    BigEndianConcat(b[..i + 1], b[i + 1..]);
    BigEndianBound(a[i + 1..]);
    assert a[..i + 1][..i] == a[..i] && b[..i + 1][..i] == b[..i];
    MulMonotone(BigEndian(a[..i + 1]), BigEndian(b[..i + 1]), d);
  }

  function Reversed(s: Bytes32): (r: Bytes32)
    ensures forall i :: 0 <= i < 32 ==> r[i] == s[31 - i]
  {
    seq<Byte>(32, i requires 0 <= i < 32 => s[31 - i])
  }

  /** The byte-wise comparison accepts a hash exactly when, read as a little-endian number, it is at
      most the big-endian target. */
  method VerifyTargetHash(hash: Bytes32, target: Bytes32) returns (valid: bool)
    ensures valid <==> LittleEndian(hash) <= BigEndian(target)
  {
    ghost var h: Bytes32 := Reversed(hash);
    LittleEndianReversed(hash, h);
    for i := 0 to 32
      invariant h[..i] == target[..i]
    {
      if hash[31 - i] < target[i] {
        FirstDifference(h, target, i);
        return true;
      }
      if hash[31 - i] > target[i] {
        FirstDifference(target, h, i);
        return false;
      }
    }
    assert h[..32] == h && target[..32] == target;
    return true;
  }

  // ----- work

  /** The work of a block found under target `t`, in wrapping 256-bit arithmetic. */
  function TargetToWork(t: nat): (work: nat)
    requires IsU256(t)
    ensures IsU256(work)
  {
    var max := Modulus() - 1;
    if t == 0 || t == 1 then max
    else if t == max then 1
    else
      var divisor := (t + 1) % Modulus();
      DivUnique(t + 1, Modulus(), 0, t + 1);
      DivAtMost(max - t, divisor);
      ((max - t) / divisor + 1) % Modulus()
  }

  /** Work is 2^256 / (t + 1), rounded down, for every target above 1. */
  lemma WorkIsInverse(t: nat)
    requires IsU256(t) && t >= 2
    ensures TargetToWork(t) == Modulus() / (t + 1)
  {
    hide Modulus;
    var m := Modulus();
    if t == m - 1 {
      DivUnique(m, t + 1, 1, 0);
    } else {
      var rest := m - 1 - t;
      var q := rest / (t + 1);
      DivUnique(t + 1, m, 0, t + 1);
      assert q * (t + 1) <= rest < q * (t + 1) + (t + 1);
      DivUnique(m, t + 1, q + 1, rest - q * (t + 1)) by {
        assert (q + 1) * (t + 1) == q * (t + 1) + (t + 1);
      }
      DivBelow(m, t + 1);
      DivUnique(q + 1, m, 0, q + 1);
    }
  }

  /** And for the two smallest targets it is the largest 256-bit number. */
  lemma WorkValue(t: nat)
    requires IsU256(t)
    ensures TargetToWork(t) == if t < 2 then Pow2(256) - 1 else Pow2(256) / (t + 1)
  {
    if t >= 2 {
      WorkIsInverse(t);
    }
    hide Pow2;
  }

  lemma DivBelow(a: nat, d: nat)
    requires a > 0 && d >= 2
    ensures 0 <= a / d < a
  {
    DivAtMost(a, d);
    var q := a / d;
    assert q * d <= a;
    assert q > 0 ==> q < q * d;
  }

  lemma DivAntitone(a: nat, c: nat, d: nat)
    requires 0 < c <= d
    ensures a / d <= a / c
  {
    var q, r := a / d, a / c;
    DivAtMost(a, d);
    DivAtMost(a, c);
    assert q * d <= a && a < (r + 1) * c;
    ProductBound(q, c, q, d);
    MulMonotone(r + 1, q, c);
  }

  /** A smaller target never stands for less work. */
  lemma WorkAntitone(t: nat, u: nat)
    requires IsU256(u) && t <= u
    ensures TargetToWork(u) <= TargetToWork(t)
  {
    if t >= 2 {
      WorkIsInverse(t);
      WorkIsInverse(u);
      DivAntitone(Modulus(), t + 1, u + 1);
    }
  }

  lemma WorkPositive(t: nat)
    requires IsU256(t)
    ensures TargetToWork(t) >= 1
  {
    Pow2Monotone(2, WORD_BITS);
    WorkAntitone(t, Modulus() - 1);
  }

  function SaturatingAdd(a: nat, b: nat): nat {
    if a + b < Modulus() then a + b else Modulus() - 1
  }

  // ----- retargeting

  /** 32-bit wrapping subtraction. */
  function Sub32(a: nat, b: nat): nat {
    (a - b) % 0x1_0000_0000
  }

  /** The number within `lo..hi` nearest to `x`. */
  ghost function Nearest(x: nat, lo: nat, hi: nat): (r: nat)
    requires lo <= hi
    ensures lo <= r <= hi
    ensures lo <= x <= hi ==> r == x
  {
    if x <= lo then lo else if hi <= x then hi else x
  }

  /** Seconds from one 32-bit time to another; a clock that went back has gone almost all the way round. */
  ghost function Elapsed(start: nat, last: nat): nat
    requires IsU32(start) && IsU32(last)
  {
    if start <= last then last - start else last + 0x1_0000_0000 - start
  }

  /** The span the retarget uses: the measured one, kept within a factor 4 of the expected one. */
  function ClampedSpan(start: nat, last: nat, expected: nat): (span: nat)
    requires expected > 0
    ensures expected / 4 <= span <= expected * 4
    ensures IsU32(start) && IsU32(last) ==> span == Nearest(Elapsed(start, last), expected / 4, expected * 4)
  {
    var actual := Sub32(last, start);
    if actual < expected / 4 then expected / 4
    else if actual > expected * 4 then expected * 4
    else actual
  }

  /** The old target times the span, before reduction to 256 bits. */
  function Scaled(start: nat, last: nat, bits: nat, expected: nat): nat
    requires expected > 0
  {
    Mul(DecodeBits(bits), ClampedSpan(start, last, expected))
  }

  function NewTarget(start: nat, last: nat, bits: nat, maxTarget: nat, expected: nat): (t: nat)
    requires expected > 0
    ensures t <= maxTarget
  {
    var product := Scaled(start, last, bits, expected) % Modulus();
    DivAtMost(product, expected);
    var t := product / expected;
    if t > maxTarget then maxTarget else t
  }

  /** With the decoded target within the limit, and the limit times four spans within 256 bits, the
      multiplication never wraps: the new target is the old one times the measured span, itself kept within a
      factor of four of the expected one, over the expected span, rounded down and capped. */
  lemma RetargetExact(start: nat, last: nat, bits: nat, maxTarget: nat, expected: nat)
    requires expected > 0 && expected % 4 == 0
    requires DecodeBits(bits) <= maxTarget && IsU256(Mul(maxTarget, 4 * expected))
    ensures var t := DecodeBits(bits);
      var exact := Scaled(start, last, bits, expected);
      var next := NewTarget(start, last, bits, maxTarget, expected);
      && IsU256(exact)
      && next == (if exact / expected <= maxTarget then exact / expected else maxTarget)
      && t / 4 <= next <= 4 * t
    ensures IsU32(start) && IsU32(last) ==>
      var exact := Mul(DecodeBits(bits), Nearest(Elapsed(start, last), expected / 4, expected * 4)) / expected;
      NewTarget(start, last, bits, maxTarget, expected) == (if exact <= maxTarget then exact else maxTarget)
  {
    hide Modulus, DecodeBits, ClampedSpan;
    var t := DecodeBits(bits);
    var span := ClampedSpan(start, last, expected);
    ProductBound(t, span, maxTarget, 4 * expected);
    DivUnique(t * span, Modulus(), 0, t * span);
    QuarterToFourfold(t, span, expected);
  }

  lemma ProductBound(a: nat, b: nat, c: nat, d: nat)
    requires a <= c && b <= d
    ensures a * b <= c * d
  {
    assert Mul(a, b) == a * b && Mul(c, b) == Mul(b, c) && Mul(d, c) == c * d;
    hide Mul;
    if a < c {
      MulGap(a, c, b);
    }
    if b < d {
      MulGap(b, d, c);
    }
  }

  lemma AtLeastQuarter(t: nat, quarter: nat, span: nat)
    requires quarter <= span
    ensures t / 4 * (4 * quarter) <= t * span
  {
    var q := t / 4;
    assert q * (4 * quarter) == (4 * q) * quarter;
    ProductBound(4 * q, quarter, t, span);
  }

  lemma AtMostFourfold(t: nat, span: nat, expected: nat)
    requires expected > 0 && span <= expected * 4
    ensures t * span < (4 * t + 1) * expected
  {
    ProductBound(t, span, t, expected * 4);
    assert t * (expected * 4) + expected == (4 * t + 1) * expected;
  }

  lemma QuarterToFourfold(t: nat, span: nat, expected: nat)
    requires expected > 0 && expected % 4 == 0 && expected / 4 <= span <= expected * 4
    ensures t / 4 <= t * span / expected <= 4 * t
  {
    AtLeastQuarter(t, expected / 4, span);
    AtMostFourfold(t, span, expected);
    DivBounds(t * span, expected, t / 4, 4 * t + 1);
  }
}
