/**
 Target arithmetic of the share validator: compact nBits expansion, base-256 long
 division by a difficulty, and the big-endian comparison. Each byte-array loop is
 proved to compute an exact integer.
 */
module Target {
  import opened Bytes

  const DIFF1_NBITS: u32 := 0x1d00ffff

  function Exponent(nbits: u32): (e: nat)
    ensures e < 256
  {
    nbits / 0x100_0000
  }

  function Mantissa(nbits: u32): (m: nat)
    ensures m < 0x100_0000
  {
    nbits % 0x100_0000
  }

  /** What the compact format means: m * 256^(e - 3), a division when e is below 3. */
  function Compact(e: nat, m: nat): nat {
    if e >= 3 then Scale(m, e - 3)
    else if e == 2 then m / 0x100
    else if e == 1 then m / 0x1_0000
    else m / 0x100_0000
  }

  /**
   The integer the code's expansion stands for. At exponents up to 3 it shifts left and
   keeps the low 32 bits; above 32 the byte offset wraps past the end of the array and
   nothing is written.
   */
  function Expanded(e: nat, m: nat): nat {
    if e <= 3 then Scale(m, 3 - e) % 0x1_0000_0000
    else if e <= 32 then Scale(m, e - 3)
    else 0
  }

  function TargetValue(nbits: u32): nat {
    Expanded(Exponent(nbits), Mantissa(nbits))
  }

  /** `nbits_to_target`, with usize subtraction wrapping as in a release build. */
  method NbitsToTarget(nbits: u32) returns (target: bytes)
    ensures |target| == 32 && Be(target) == TargetValue(nbits)
  {
    var exponent, mantissa := Exponent(nbits), Mantissa(nbits);
    if exponent <= 3 {
      target := WriteLowWord(Scale(mantissa, 3 - exponent));
    } else {
      target := WriteShifted(mantissa, exponent - 3);
    }
  }

  /** The branch for exponents up to 3: the last four bytes. */
  method WriteLowWord(v: nat) returns (target: bytes)
    ensures |target| == 32 && Be(target) == v % 0x1_0000_0000
  {
    var buf := new byte[32](_ => 0);
    buf[28] := (v / 0x100_0000) % 256;
    buf[29] := (v / 0x1_0000) % 256;
    buf[30] := (v / 0x100) % 256;
    buf[31] := v % 256;
    target := buf[..];
    FourBytes(v);
    assert target == Zeros(28) + BeBytes(v, 4);
    LowWordValue(v);
  }

  /** The branch for larger exponents: three bytes in front of `shift` zeros, where they fit. */
  method WriteShifted(mantissa: nat, shift: nat) returns (target: bytes)
    requires mantissa < 0x100_0000 && shift < 0x100
    ensures |target| == 32 && Be(target) == if shift <= 29 then Scale(mantissa, shift) else 0
  {
    var buf := new byte[32](_ => 0);
    var byteOffset := (32 - shift - 3) % 0x1_0000_0000_0000_0000;
    WrappedOffset(shift);
    if byteOffset < 32 {
      buf[byteOffset] := (mantissa / 0x1_0000) % 256;
      if byteOffset + 1 < 32 {
        buf[byteOffset + 1] := (mantissa / 0x100) % 256;
      }
      if byteOffset + 2 < 32 {
        buf[byteOffset + 2] := mantissa % 256;
      }
      target := buf[..];
      ThreeBytes(mantissa);
      assert target == Zeros(byteOffset) + BeBytes(mantissa, 3) + Zeros(shift);
      ShiftedValue(byteOffset, mantissa, shift);
    } else {
      target := buf[..];
      assert target == Zeros(32);
      BeZeros(32);
    }
  }

  lemma WrappedOffset(shift: nat)
    requires shift < 0x100
    ensures (32 - shift - 3) % 0x1_0000_0000_0000_0000
         == if shift <= 29 then 29 - shift else 0x1_0000_0000_0000_0000 + 29 - shift
  {
  }

  lemma LowWordValue(v: nat)
    ensures Be(Zeros(28) + BeBytes(v, 4)) == v % 0x1_0000_0000
  {
    BeZeros(28);
    BeConcat(Zeros(28), BeBytes(v, 4));
    BeBytesTruncates(v, 4);
    ScaleSum(0, 0, 4);
    Pow256Values();
  }

  lemma ThreeBytes(v: nat)
    ensures BeBytes(v, 3) == [(v / 0x1_0000) % 256, (v / 0x100) % 256, v % 256]
  {
    assert BeBytes(v, 3) == BeBytes(v / 256, 2) + [v % 256];
    assert BeBytes(v / 256, 2) == BeBytes(v / 256 / 256, 1) + [(v / 256) % 256];
    assert BeBytes(v / 256 / 256, 1) == BeBytes(v / 256 / 256 / 256, 0) + [(v / 256 / 256) % 256];
  }

  lemma DroppedDigit(v: nat)
    ensures (v / 256) / 0x1_0000 == v / 0x100_0000 && (v / 256) / 0x100 == v / 0x1_0000
  {
  }

  lemma FourBytes(v: nat)
    ensures BeBytes(v, 4) == [(v / 0x100_0000) % 256, (v / 0x1_0000) % 256, (v / 0x100) % 256, v % 256]
  {
    ThreeBytes(v / 256);
    DroppedDigit(v);
    assert BeBytes(v, 4) == BeBytes(v / 256, 3) + [v % 256];
  }

  lemma {:induction false} BeBytesTruncates(v: nat, n: nat)
    ensures Be(BeBytes(v, n)) == v % Pow256(n)
  {
    if n > 0 {
      BeBytesTruncates(v / 256, n - 1);
      assert BeBytes(v, n)[..n - 1] == BeBytes(v / 256, n - 1);
      ModByDigits(v, Pow256(n - 1));
    }
  }

  lemma ModByDigits(v: nat, p: nat)
    requires p > 0
    ensures v % (256 * p) == (v / 256 % p) * 256 + v % 256
  {
    var q, r := v / 256 / p, v / 256 % p;
    assert v / 256 == q * p + r;
    assert v == (256 * p) * q + (r * 256 + v % 256);
    assert 0 <= r * 256 + v % 256 < 256 * p;
    UniqueMod(v, 256 * p, q, r * 256 + v % 256);
  }

  lemma UniqueMod(v: nat, d: nat, q: nat, r: nat)
    requires d > 0 && v == d * q + r && r < d
    ensures v % d == r && v / d == q
  {
    var q' := v / d;
    assert v == d * q' + v % d;
    if q' < q {
      MulMonotone(q' + 1, q, d);
    } else if q < q' {
      MulMonotone(q + 1, q', d);
    }
  }

  lemma ShiftedValue(offset: nat, mantissa: nat, shift: nat)
    requires mantissa < 0x100_0000
    ensures Be(Zeros(offset) + BeBytes(mantissa, 3) + Zeros(shift)) == Scale(mantissa, shift)
  {
    var body := Zeros(offset) + BeBytes(mantissa, 3);
    BeConcat(body, Zeros(shift));
    BeConcat(Zeros(offset), BeBytes(mantissa, 3));
    BeZeros(offset);
    BeZeros(shift);
    ScaleSum(0, 0, 3);
    Pow256Values();
    BeBytesRoundTrip(mantissa, 3);
  }

  /**
   The expansion agrees with the compact format exactly at exponents 3 to 32, for a zero
   mantissa, and at exponent 0 when the mantissa's low byte is zero (both sides are then 0).
   */
  lemma CompactExpansionExact(nbits: u32)
    ensures TargetValue(nbits) == Compact(nbits / 0x100_0000, nbits % 0x100_0000) <==>
            || 3 <= nbits / 0x100_0000 <= 32
            || nbits % 0x100_0000 == 0
            || (nbits / 0x100_0000 == 0 && nbits % 256 == 0)
  {
    ExpansionExact(Exponent(nbits), Mantissa(nbits));
  }

  lemma ExpansionExact(e: nat, m: nat)
    requires m < 0x100_0000
    ensures Expanded(e, m) == Compact(e, m) <==> 3 <= e <= 32 || m == 0 || (e == 0 && m % 256 == 0)
  {
    if e > 32 {
      ScaleSum(0, 0, e - 3);
      if m > 0 {
        HigherPartWins(0, m, e - 3, 0, 0);
      }
    } else if e < 3 {
      SmallScales(m);
      SmallExponent(m);
    }
  }

  lemma SmallScales(m: nat)
    ensures Scale(m, 0) == m && Scale(m, 1) == m * 0x100
    ensures Scale(m, 2) == m * 0x1_0000 && Scale(m, 3) == m * 0x100_0000
  {
    assert Scale(m, 2) == 256 * Scale(m, 1);
    assert Scale(m, 3) == 256 * Scale(m, 2);
  }

  lemma SmallExponent(m: nat)
    requires m < 0x100_0000
    ensures (m * 0x100_0000) % 0x1_0000_0000 == m / 0x100_0000 <==> m % 256 == 0
    ensures (m * 0x1_0000) % 0x1_0000_0000 == m / 0x1_0000 <==> m == 0
    ensures (m * 0x100) % 0x1_0000_0000 == m / 0x100 <==> m == 0
  {
    UniqueMod(m * 0x100_0000, 0x1_0000_0000, m / 256, (m % 256) * 0x100_0000);
    UniqueMod(m * 0x1_0000, 0x1_0000_0000, m / 0x1_0000, (m % 0x1_0000) * 0x1_0000);
  }

  /** What the code computes there: a shift to the left within 32 bits below exponent 3, and zero above 32. */
  lemma OutsideExactRange(nbits: u32)
    ensures var e, m := nbits / 0x100_0000, nbits % 0x100_0000;
            && (e == 2 ==> TargetValue(nbits) == m * 0x100)
            && (e == 1 ==> TargetValue(nbits) == m * 0x1_0000 % 0x1_0000_0000)
            && (e == 0 ==> TargetValue(nbits) == m * 0x100_0000 % 0x1_0000_0000)
            && (e > 32 ==> TargetValue(nbits) == 0)
  {
    SmallScales(Mantissa(nbits));
  }

  /** Below exponent 3 and above exponent 32 the code does leave the compact format. */
  lemma CompactExpansionFails()
    ensures Expanded(2, 0x100) == 0x1_0000 && Compact(2, 0x100) == 1
    ensures Expanded(33, 1) == 0 && Compact(33, 1) > 0
  {
    SmallScales(0x100);
    ExpansionExact(33, 1);
  }

  /** `div_target_by_difficulty`: schoolbook division, one base-256 digit at a time. */
  method DivTargetByDifficulty(target: bytes, difficulty: u32) returns (quotient: bytes)
    requires |target| == 32
    ensures |quotient| == 32
    ensures Be(quotient) == FloorDiv(Be(target), if difficulty <= 1 then 1 else difficulty)
  {
    if difficulty <= 1 {
      return target;
    }
    var divisor := difficulty;
    var out := new byte[32](_ => 0);
    var remainder: u64 := 0;
    for i := 0 to 32
      invariant DividedBytes(target[..i], divisor, out[..i], remainder)
    {
      ghost var before, prefix, next := out[..i], target[..i], target[i];
      var digit;
      digit, remainder := DivideDigit(remainder, target[i], divisor, before, prefix);
      out[i] := digit;
      assert out[..i + 1] == before + [digit];
      assert target[..i + 1] == prefix + [next];
    }
    assert target[..32] == target;
    quotient := out[..32];
    DividedIsFloor(Be(target), divisor, Be(quotient), remainder);
  }

  /** The digits q and the integer r are the quotient and remainder of the digits v by d. */
  predicate DividedBytes(v: bytes, d: nat, q: bytes, r: nat) {
    Divided(Be(v), d, Be(q), r)
  }

  /** q and r are the quotient and remainder of v by d. */
  predicate Divided(v: nat, d: nat, q: nat, r: nat) {
    v == q * d + r && r < d
  }

  lemma DividedIsFloor(v: nat, d: nat, q: nat, r: nat)
    requires d > 0 && Divided(v, d, q, r)
    ensures q == FloorDiv(v, d)
  {
    UniqueMod(v, d, q, r);
  }

  lemma BeSnoc(s: bytes, b: byte)
    ensures Be(s + [b]) == Be(s) * 256 + b
  {
    assert (s + [b])[..|s|] == s;
  }

  /** The loop body: the next quotient digit, which the cast to a byte does not cut, and the new remainder. */
  method DivideDigit(remainder: u64, next: byte, divisor: u32, ghost q: bytes, ghost prefix: bytes)
    returns (digit: byte, rest: u64)
    requires DividedBytes(prefix, divisor, q, remainder)
    ensures DividedBytes(prefix + [next], divisor, q + [digit], rest)
  {
    var value: u64 := remainder * 256 + next;
    DigitFits(remainder, next, divisor);
    digit := (value / divisor) % 256;
    rest := value % divisor;
    NextDigit(Be(q), Be(prefix), value, digit, divisor, next);
    BeSnoc(q, digit);
    BeSnoc(prefix, next);
  }

  /** No quotient digit is cut by the cast to a byte. */
  lemma DigitFits(remainder: nat, next: byte, divisor: nat)
    requires remainder < divisor
    ensures 0 <= (remainder * 256 + next) / divisor < 256
  {
    var value := remainder * 256 + next;
    var q := value / divisor;
    assert value == divisor * q + value % divisor;
    MulCancel(q, 256, divisor);
  }

  lemma NextDigit(q: nat, prefix: nat, value: nat, digit: nat, divisor: nat, next: nat)
    requires divisor > 0 && digit == value / divisor
    requires q * divisor <= prefix && value == (prefix - q * divisor) * 256 + next
    ensures (q * 256 + digit) * divisor + value % divisor == prefix * 256 + next
  {
    assert value == divisor * digit + value % divisor;
    Distribute(q, digit, divisor);
  }

  lemma Distribute(q: nat, digit: nat, divisor: nat)
    ensures (q * 256 + digit) * divisor == (q * divisor) * 256 + divisor * digit
  {
  }

  /** `leq_be`: the first differing byte decides, and that is the order of the integers. */
  method LeqBe(a: bytes, b: bytes) returns (leq: bool)
    requires |a| == |b| == 32
    ensures leq <==> Be(a) <= Be(b)
  {
    for i := 0 to 32
      invariant a[..i] == b[..i]
    {
      if a[i] < b[i] {
        FirstDifference(a, b, i);
        return true;
      }
      if a[i] > b[i] {
        FirstDifference(b, a, i);
        return false;
      }
      assert a[..i + 1] == a[..i] + [a[i]] && b[..i + 1] == b[..i] + [b[i]];
    }
    assert a == a[..32] && b == b[..32];
    return true;
  }

  lemma FirstDifference(a: bytes, b: bytes, i: nat)
    requires |a| == |b| && i < |a|
    requires a[..i] == b[..i] && a[i] < b[i]
    ensures Be(a) < Be(b)
  {
    var p, x, y := a[..i], a[i + 1..], b[i + 1..];
    assert a == p + [a[i]] + x && b == p + [b[i]] + y;
    BeConcat(p + [a[i]], x);
    BeConcat(p + [b[i]], y);
    BeSnoc(p, a[i]);
    BeSnoc(p, b[i]);
    BeBound(x);
    HigherPartWins(Be(p + [a[i]]), Be(p + [b[i]]), |x|, Be(x), Be(y));
  }

  /** The pool target at difficulty d, as an integer: the difficulty-1 target divided by max(1, d). */
  function ShareTarget(difficulty: u32): nat {
    FloorDiv(TargetValue(DIFF1_NBITS), if difficulty <= 1 then 1 else difficulty)
  }

  function FloorDiv(t: nat, d: nat): nat
    requires d > 0
  {
    t / d
  }

  lemma Diff1Value()
    ensures TargetValue(DIFF1_NBITS) == 0xffff * Pow256(26)
  {
    ScaleIsProduct(0xffff, 26);
    assert Exponent(DIFF1_NBITS) == 0x1d && Mantissa(DIFF1_NBITS) == 0xffff;
  }

  /** Meeting the divided target is the undivided inequality hash * d <= 0xffff * 256^26. */
  lemma ShareTargetExact(hash: nat, difficulty: u32)
    ensures hash <= ShareTarget(difficulty) <==>
            hash * (if difficulty <= 1 then 1 else difficulty) <= 0xffff * Pow256(26)
  {
    Diff1Value();
    FloorIsExact(hash, 0xffff * Pow256(26), if difficulty <= 1 then 1 else difficulty);
  }

  lemma FloorIsExact(h: nat, t: nat, d: nat)
    requires d > 0
    ensures h <= FloorDiv(t, d) <==> h * d <= t
  {
    var q := t / d;
    assert t == d * q + t % d;
    if h <= q {
      assert h * d <= q * d;
    } else {
      assert (q + 1) * d <= h * d;
    }
  }

  /** Dividing by more gives less, whatever the target. */
  lemma QuotientAntitone(t: nat, low: nat, high: nat)
    requires 0 < low <= high
    ensures FloorDiv(t, high) <= FloorDiv(t, low)
  {
    var q := FloorDiv(t, high);
    FloorIsExact(q, t, high);
    MulMonotone(low, high, q);
    FloorIsExact(q, t, low);
  }

  /** A share good enough for a higher difficulty is good enough for every lower one. */
  lemma ShareTargetAntitone(hash: nat, low: u32, high: u32)
    requires low <= high && hash <= ShareTarget(high)
    ensures hash <= ShareTarget(low)
  {
    QuotientAntitone(TargetValue(DIFF1_NBITS), if low <= 1 then 1 else low, if high <= 1 then 1 else high);
  }

  /** No target reaches the largest 256-bit value, so some hash misses each of them. */
  lemma TargetBelowMax(nbits: u32)
    ensures TargetValue(nbits) < Pow256(32) - 1
  {
    var e, m := Exponent(nbits), Mantissa(nbits);
    Pow256Values();
    Pow256Monotone(5, 32);
    if 3 < e <= 32 {
      Pow256Monotone(e, 32);
      ScaleBelow(m, e - 3);
    }
  }

  lemma ShareTargetBelowMax(difficulty: u32)
    ensures ShareTarget(difficulty) < Pow256(32) - 1
  {
    QuotientAntitone(TargetValue(DIFF1_NBITS), 1, if difficulty <= 1 then 1 else difficulty);
    TargetBelowMax(DIFF1_NBITS);
  }

  lemma {:induction false} ScaleBelow(m: nat, n: nat)
    requires m < 0x100_0000
    ensures Scale(m, n) < Pow256(n + 3)
    ensures n > 0 ==> Scale(m, n) + 1 < Pow256(n + 3)
  {
    Pow256Values();
    if n > 0 {
      ScaleBelow(m, n - 1);
    }
  }
}
