/** Hexadecimal and decimal text, as the wire format, the daemon's templates and job ids use it. */
module Hex {
  import opened Bytes
  import opened Wrappers

  type nibble = x: int | 0 <= x < 16

  function HexDigit(n: nibble): char {
    if n < 10 then (n + 48) as char else (n + 87) as char
  }

  function FromNibbles(hi: nibble, lo: nibble): byte {
    (hi as int) * 16 + (lo as int)
  }

  lemma NibbleOfDigit(n: nibble)
    ensures Nibble(HexDigit(n)) == Some(n)
  {
  }

  /** `decode_hex_nibble`: either letter case. */
  function Nibble(c: char): Option<nibble> {
    if '0' <= c <= '9' then Some((c as int) - ('0' as int))
    else if 'a' <= c <= 'f' then Some((c as int) - ('a' as int) + 10)
    else if 'A' <= c <= 'F' then Some((c as int) - ('A' as int) + 10)
    else None
  }

  const LOWER_DIGITS: string := "0123456789abcdef"

  const UPPER_DIGITS: string := "0123456789ABCDEF"

  /** A character is read as a digit exactly when it is that digit in lower or in upper case. */
  lemma NibbleExactly(c: char, n: nibble)
    ensures Nibble(c) == Some(n) <==> c == LOWER_DIGITS[n] || c == UPPER_DIGITS[n]
  {
    if n < 10 {
      DecimalDigit(n);
    } else {
      LetterDigit(n);
    }
  }

  lemma DecimalDigit(n: nibble)
    requires n < 10
    ensures LOWER_DIGITS[n] == UPPER_DIGITS[n] == (n + 48) as char
  {
    assert n in {0, 1, 2, 3, 4, 5, 6, 7, 8, 9};
  }

  lemma LetterDigit(n: nibble)
    requires n >= 10
    ensures LOWER_DIGITS[n] == (n + 87) as char && UPPER_DIGITS[n] == (n + 55) as char
  {
    assert n in {10, 11, 12, 13, 14, 15};
  }

  /** `hex::encode`. */
  function HexEncode(b: bytes): (s: string)
    ensures |s| == 2 * |b|
  {
    if b == [] then "" else [HexDigit(b[0] / 16), HexDigit(b[0] % 16)] + HexEncode(b[1..])
  }

  /** `hex::decode`: an even number of digits and nothing else. */
  function HexDecode(s: string): (r: Option<bytes>)
    ensures r.Some? ==> 2 * |r.value| == |s|
  {
    if s == "" then Some([])
    else if |s| == 1 then None
    else match (Nibble(s[0]), Nibble(s[1]), HexDecode(s[2..]))
      case (Some(hi), Some(lo), Some(rest)) => Some([FromNibbles(hi, lo)] + rest)
      case _ => None
  }

  lemma {:induction false} HexRoundTrip(b: bytes)
    ensures HexDecode(HexEncode(b)) == Some(b)
  {
    if b != [] {
      HexRoundTrip(b[1..]);
      assert HexEncode(b)[2..] == HexEncode(b[1..]);
      NibbleOfDigit(b[0] / 16);
      NibbleOfDigit(b[0] % 16);
      assert b == [b[0]] + b[1..];
    }
  }

  /** Byte i is printed as two lower-case digits at 2i, the high one first. */
  lemma {:induction false} HexEncodeAt(b: bytes, i: nat)
    requires i < |b|
    ensures HexEncode(b)[2 * i] == LOWER_DIGITS[b[i] / 16]
    ensures HexEncode(b)[2 * i + 1] == LOWER_DIGITS[b[i] % 16]
    decreases |b|
  {
    if i == 0 {
      DigitIsLower(b[0] / 16);
      DigitIsLower(b[0] % 16);
    } else {
      HexEncodeAt(b[1..], i - 1);
      assert HexEncode(b)[2..] == HexEncode(b[1..]);
    }
  }

  lemma DigitIsLower(n: nibble)
    ensures HexDigit(n) == LOWER_DIGITS[n]
  {
    if n < 10 {
      DecimalDigit(n);
    } else {
      LetterDigit(n);
    }
  }

  lemma HexEncodeInjective(a: bytes, b: bytes)
    requires HexEncode(a) == HexEncode(b)
    ensures a == b
  {
    HexRoundTrip(a);
    HexRoundTrip(b);
  }

  /** Decodable text is made of hexadecimal digits, in pairs. */
  lemma {:induction false} HexDecodable(s: string)
    ensures HexDecode(s).Some? <==> |s| % 2 == 0 && forall i :: 0 <= i < |s| ==> Nibble(s[i]).Some?
  {
    if |s| >= 2 {
      HexDecodable(s[2..]);
      if forall i :: 0 <= i < |s| ==> Nibble(s[i]).Some? {
        forall i | 0 <= i < |s[2..]| ensures Nibble(s[2..][i]).Some? {
          assert s[2..][i] == s[i + 2];
        }
      } else {
        var i :| 0 <= i < |s| && Nibble(s[i]).None?;
        assert i >= 2 ==> s[2..][i - 2] == s[i];
      }
    }
  }

  lemma {:induction false} HexDecodeConcat(s: string, t: string)
    requires |s| % 2 == 0
    ensures HexDecode(s).Some? && HexDecode(t).Some? ==>
              HexDecode(s + t) == Some(HexDecode(s).value + HexDecode(t).value)
    ensures HexDecode(s + t).Some? ==> HexDecode(s).Some? && HexDecode(t).Some?
  {
    if s == "" {
      assert s + t == t;
      assert HexDecode(t).Some? ==> [] + HexDecode(t).value == HexDecode(t).value;
    } else {
      HexDecodeConcat(s[2..], t);
      assert (s + t)[2..] == s[2..] + t && (s + t)[0] == s[0] && (s + t)[1] == s[1];
      match (Nibble(s[0]), Nibble(s[1]), HexDecode(s[2..]), HexDecode(t)) {
        case (Some(hi), Some(lo), Some(x), Some(y)) =>
          assert [FromNibbles(hi, lo)] + (x + y) == ([FromNibbles(hi, lo)] + x) + y;
        case _ =>
      }
    }
  }

  // 32-bit fields

  /** `format!("{:08x}", n)`. */
  function HexU32(n: u32): (s: string)
    ensures |s| == 8
  {
    HexEncode(BeBytes(n, 4))
  }

  function DigitsValue(s: string): Option<nat> {
    if s == "" then Some(0) else NextDigit(DigitsValue(s[..|s| - 1]), Nibble(s[|s| - 1]))
  }

  function NextDigit(high: Option<nat>, low: Option<nibble>): Option<nat> {
    if high.Some? && low.Some? then Some(high.value * 16 + low.value) else None
  }

  /** `u32::from_str_radix(s, 16)`, which takes a leading plus sign. */
  function FromStrRadix16(s: string): Option<u32> {
    var digits := if |s| > 1 && s[0] == '+' then s[1..] else s;
    if digits == "" then None
    else match DigitsValue(digits)
      case Some(v) => if v < 0x1_0000_0000 then Some(v) else None
      case None => None
  }

  /** `parse_hex_u32` on a string value: exactly eight characters. */
  function ParseHexU32(s: string): Option<u32> {
    if |s| != 8 then None else FromStrRadix16(s)
  }

  lemma {:induction false} DigitsOfBytes(b: bytes)
    ensures DigitsValue(HexEncode(b)) == Some(Be(b))
    decreases |b|
  {
    if b != [] {
      var front, last := b[..|b| - 1], b[|b| - 1];
      DigitsOfBytes(front);
      HexEncodeSnoc(front, last);
      assert b == front + [last];
      DigitsOfByte(HexEncode(front), last);
    }
  }

  lemma DigitsOfByte(s: string, b: byte)
    requires DigitsValue(s).Some?
    ensures DigitsValue(s + [HexDigit(b / 16), HexDigit(b % 16)]) == Some(DigitsValue(s).value * 256 + b)
  {
    var hi, lo := HexDigit(b / 16), HexDigit(b % 16);
    NibbleOfDigit(b / 16);
    NibbleOfDigit(b % 16);
    DigitsSnoc(s, hi);
    DigitsSnoc(s + [hi], lo);
    assert s + [hi, lo] == s + [hi] + [lo];
  }

  lemma DigitsSnoc(s: string, c: char)
    ensures DigitsValue(s + [c]) == NextDigit(DigitsValue(s), Nibble(c))
  {
    var t := s + [c];
    assert t[..|t| - 1] == s && t[|t| - 1] == c;
  }

  lemma {:induction false} HexEncodeSnoc(b: bytes, last: byte)
    ensures HexEncode(b + [last]) == HexEncode(b) + [HexDigit(last / 16), HexDigit(last % 16)]
  {
    if b != [] {
      HexEncodeSnoc(b[1..], last);
      assert (b + [last])[1..] == b[1..] + [last];
    } else {
      assert [] + [last] == [last];
    }
  }

  /** Printing a 32-bit field with eight digits and parsing it gives the field back. */
  lemma HexU32RoundTrip(n: u32)
    ensures ParseHexU32(HexU32(n)) == Some(n)
  {
    var b := BeBytes(n, 4);
    Pow256Values();
    BeBytesRoundTrip(n, 4);
    DigitsOfBytes(b);
    assert HexU32(n)[0] == HexDigit(b[0] / 16);
  }

  /** Eight characters are accepted when they are eight digits, or a plus sign and seven. */
  lemma HexU32ReadsExactly(s: string)
    ensures ParseHexU32(s).Some? <==>
              |s| == 8 && (AllDigits(s) || (s[0] == '+' && AllDigits(s[1..])))
  {
    if |s| == 8 {
      var digits := if s[0] == '+' then s[1..] else s;
      DigitsExactly(digits);
      if DigitsValue(digits).Some? {
        DigitsBound(digits);
        Pow16Monotone(|digits|, 8);
      }
      assert s[0] == '+' ==> !AllDigits(s);
    }
  }

  predicate AllDigits(s: string) {
    forall i :: 0 <= i < |s| ==> Nibble(s[i]).Some?
  }

  lemma {:induction false} DigitsExactly(s: string)
    ensures DigitsValue(s).Some? <==> AllDigits(s)
  {
    if s != "" {
      DigitsExactly(s[..|s| - 1]);
    }
  }

  function Pow16(n: nat): nat {
    if n == 0 then 1 else 16 * Pow16(n - 1)
  }

  lemma {:induction false} Pow16Monotone(m: nat, n: nat)
    requires m <= n <= 8
    ensures Pow16(m) <= Pow16(n) && Pow16(8) == 0x1_0000_0000
  {
    assert Pow16(4) == 0x1_0000;
    assert Pow16(8) == 16 * Pow16(7) == 0x100 * Pow16(6) == 0x1000 * Pow16(5) == 0x1_0000 * Pow16(4);
    if m < n {
      Pow16Monotone(m, n - 1);
    }
  }

  lemma {:induction false} DigitsBound(s: string)
    requires DigitsValue(s).Some?
    ensures DigitsValue(s).value < Pow16(|s|)
  {
    if s != "" {
      DigitsBound(s[..|s| - 1]);
    }
  }

  lemma HexU32Decodes(n: u32)
    ensures HexDecode(HexU32(n)) == Some(BeBytes(n, 4))
  {
    HexRoundTrip(BeBytes(n, 4));
  }

  lemma HexU32Injective(m: u32, n: u32)
    requires HexU32(m) == HexU32(n)
    ensures m == n
  {
    HexU32RoundTrip(m);
    HexU32RoundTrip(n);
  }

  // Trimming and decimal text

  /** The characters `str::trim` removes: Unicode White_Space. */
  predicate IsWhitespace(c: char) {
    || 9 <= c as int <= 13
    || c as int in {0x20, 0x85, 0xA0, 0x1680, 0x2028, 0x2029, 0x202F, 0x205F, 0x3000}
    || 0x2000 <= c as int <= 0x200A
  }

  function Trim(s: string): string {
    if s == "" then ""
    else if IsWhitespace(s[0]) then Trim(s[1..])
    else if IsWhitespace(s[|s| - 1]) then Trim(s[..|s| - 1])
    else s
  }

  predicate AllWhitespace(s: string) {
    forall i :: 0 <= i < |s| ==> IsWhitespace(s[i])
  }

  /** Trimming cuts whitespace off both ends, and all of it. */
  lemma {:induction false} TrimExactly(s: string) returns (left: string, right: string)
    ensures s == left + Trim(s) + right && AllWhitespace(left) && AllWhitespace(right)
    ensures Trim(s) != "" ==> !IsWhitespace(Trim(s)[0]) && !IsWhitespace(Trim(s)[|Trim(s)| - 1])
    decreases |s|
  {
    left, right := "", "";
    if s != "" {
      var last := |s| - 1;
      if IsWhitespace(s[0]) {
        left, right := TrimExactly(s[1..]);
        assert s == [s[0]] + s[1..];
        left := [s[0]] + left;
      } else if IsWhitespace(s[last]) {
        left, right := TrimExactly(s[..last]);
        assert s == s[..last] + [s[last]];
        right := right + [s[last]];
      } else {
        assert s == "" + s + "";
      }
    }
  }

  /** Decodable hexadecimal text has no whitespace to trim. */
  lemma TrimKeepsHex(s: string)
    requires HexDecode(s).Some?
    ensures Trim(s) == s
  {
    HexDecodable(s);
    if s != "" {
      assert Nibble(s[0]).Some? && Nibble(s[|s| - 1]).Some?;
    }
  }

  /** `u64::to_string`. */
  function Decimal(n: nat): (s: string)
    ensures |s| > 0
  {
    if n < 10 then [HexDigit(n)] else Decimal(n / 10) + [HexDigit(n % 10)]
  }

  lemma {:induction false} DecimalInjective(m: nat, n: nat)
    requires Decimal(m) == Decimal(n)
    ensures m == n
  {
    var s, t := Decimal(m), Decimal(n);
    assert s[|s| - 1] == HexDigit(m % 10) && t[|t| - 1] == HexDigit(n % 10);
    NibbleOfDigit(m % 10);
    NibbleOfDigit(n % 10);
    if m >= 10 && n >= 10 {
      assert s[..|s| - 1] == Decimal(m / 10) && t[..|t| - 1] == Decimal(n / 10);
      DecimalInjective(m / 10, n / 10);
    }
  }

  /** The value of decimal text. */
  function DecimalValue(s: string): int {
    if s == "" then 0 else DecimalValue(s[..|s| - 1]) * 10 + (s[|s| - 1] as int - '0' as int)
  }

  /** The text is the number in decimal digits, without a leading zero. */
  lemma {:induction false} DecimalReads(n: nat)
    ensures DecimalValue(Decimal(n)) == n
    ensures forall i :: 0 <= i < |Decimal(n)| ==> '0' <= Decimal(n)[i] <= '9'
    ensures n > 0 ==> Decimal(n)[0] != '0'
  {
    var s := Decimal(n);
    if n >= 10 {
      DecimalReads(n / 10);
      assert s[..|s| - 1] == Decimal(n / 10);
    } else {
      assert s[..0] == "";
    }
  }
}
