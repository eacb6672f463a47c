/**
 Machine integers, byte strings, and their big- and little-endian values.
 The sources use fixed-width unsigned integers; a subset type gives each width
 its range and every cast that could wrap is written out where it happens.
 */
module Bytes {

  type byte = x: int | 0 <= x < 256
  type bytes = seq<byte>
  type u32 = x: int | 0 <= x < 0x1_0000_0000
  type u64 = x: int | 0 <= x < 0x1_0000_0000_0000_0000

  /** A 32-byte digest or header field. */
  type Hash32 = s: bytes | |s| == 32 witness seq(32, _ => 0)

  function Zeros(n: nat): (s: bytes)
    ensures |s| == n
  {
    seq(n, _ => 0)
  }

  function Pow256(n: nat): (p: nat)
    ensures p > 0
  {
    if n == 0 then 1 else 256 * Pow256(n - 1)
  }

  /** m * 256^n: m followed by n zero digits. */
  function Scale(m: nat, n: nat): nat {
    if n == 0 then m else 256 * Scale(m, n - 1)
  }

  function Be(s: bytes): nat {
    if s == [] then 0 else Be(s[..|s| - 1]) * 256 + s[|s| - 1]
  }

  function Le(s: bytes): nat {
    if s == [] then 0 else s[0] + 256 * Le(s[1..])
  }

  /** The low n bytes of v, least significant first: a truncating to_le_bytes. */
  function LeBytes(v: nat, n: nat): (s: bytes)
    ensures |s| == n
  {
    if n == 0 then [] else [v % 256] + LeBytes(v / 256, n - 1)
  }

  /** The low n bytes of v, most significant first. */
  function BeBytes(v: nat, n: nat): (s: bytes)
    ensures |s| == n
  {
    if n == 0 then [] else BeBytes(v / 256, n - 1) + [v % 256]
  }

  function Reverse<T>(s: seq<T>): (r: seq<T>)
    ensures |r| == |s|
    ensures forall i :: 0 <= i < |s| ==> r[i] == s[|s| - 1 - i]
  {
    if s == [] then [] else Reverse(s[1..]) + [s[0]]
  }

  lemma ReverseInvolutive<T>(s: seq<T>)
    ensures Reverse(Reverse(s)) == s
  {
  }

  lemma MulMonotone(x: nat, y: nat, d: nat)
    requires x <= y
    ensures x * d <= y * d
    ensures (x + 1) * d == x * d + d
  {
  }

  lemma MulCancel(x: nat, y: nat, d: nat)
    requires x * d < y * d
    ensures x < y
  {
    if y <= x {
      MulMonotone(y, x, d);
    }
  }

  lemma {:induction false} ScaleIsProduct(m: nat, n: nat)
    ensures Scale(m, n) == m * Pow256(n)
  {
    if n > 0 {
      ScaleIsProduct(m, n - 1);
      assert 256 * (m * Pow256(n - 1)) == m * (256 * Pow256(n - 1));
    }
  }

  lemma {:induction false} ScaleSum(x: nat, y: nat, n: nat)
    ensures Scale(x + y, n) == Scale(x, n) + Scale(y, n)
    ensures Scale(1, n) == Pow256(n) && Scale(0, n) == 0
  {
    if n > 0 {
      ScaleSum(x, y, n - 1);
    }
  }

  /** A higher leading part outweighs any lower digits. */
  lemma HigherPartWins(x: nat, y: nat, n: nat, low: nat, other: nat)
    requires x < y && low < Pow256(n)
    ensures Scale(x, n) + low < Scale(y, n) + other
  {
    ScaleSum(x, 1, n);
    ScaleSum(x + 1, y - x - 1, n);
  }

  lemma Pow256Values()
    ensures Pow256(1) == 0x100 && Pow256(2) == 0x1_0000 && Pow256(3) == 0x100_0000
    ensures Pow256(4) == 0x1_0000_0000
    ensures Pow256(7) == 0x100_0000_0000_0000
    ensures Pow256(8) == 0x1_0000_0000_0000_0000
  {
    assert Pow256(3) == 256 * Pow256(2);
    assert Pow256(4) == 256 * Pow256(3);
    assert Pow256(5) == 256 * Pow256(4);
    assert Pow256(6) == 256 * Pow256(5);
    assert Pow256(7) == 256 * Pow256(6);
    assert Pow256(8) == 256 * Pow256(7);
  }

  lemma {:induction false} Pow256Monotone(m: nat, n: nat)
    requires m <= n
    ensures Pow256(m) <= Pow256(n)
  {
    if m < n {
      Pow256Monotone(m, n - 1);
    }
  }

  lemma {:induction false} LeBytesRoundTrip(v: nat, n: nat)
    requires v < Pow256(n)
    ensures Le(LeBytes(v, n)) == v
  {
    if n > 0 {
      LeBytesRoundTrip(v / 256, n - 1);
      assert LeBytes(v, n)[1..] == LeBytes(v / 256, n - 1);
    }
  }

  lemma {:induction false} LeRoundTrip(s: bytes)
    ensures Le(s) < Pow256(|s|)
    ensures LeBytes(Le(s), |s|) == s
  {
    if s != [] {
      LeRoundTrip(s[1..]);
      assert Le(s) / 256 == Le(s[1..]) && Le(s) % 256 == s[0];
    }
  }

  /** Two equally long little-endian encodings of the same in-range value come from the same value. */
  lemma LeBytesInjective(v: nat, w: nat, n: nat)
    requires v < Pow256(n) && w < Pow256(n) && LeBytes(v, n) == LeBytes(w, n)
    ensures v == w
  {
    LeBytesRoundTrip(v, n);
    LeBytesRoundTrip(w, n);
  }

  lemma {:induction false} BeConcat(a: bytes, b: bytes)
    ensures Be(a + b) == Scale(Be(a), |b|) + Be(b)
    decreases |b|
  {
    if b == [] {
      assert a + b == a;
    } else {
      var b' := b[..|b| - 1];
      BeConcat(a, b');
      assert (a + b)[..|a + b| - 1] == a + b';
    }
  }

  /** Read backwards, the bytes have the value they have least significant first. */
  lemma {:induction false} BeOfReverse(s: bytes)
    ensures Be(Reverse(s)) == Le(s)
  {
    if s != [] {
      BeOfReverse(s[1..]);
      assert Reverse(s)[..|s| - 1] == Reverse(s[1..]);
    }
  }

  lemma {:induction false} BeBound(s: bytes)
    ensures Be(s) < Pow256(|s|)
  {
    if s != [] {
      BeBound(s[..|s| - 1]);
    }
  }

  lemma {:induction false} BeZeros(n: nat)
    ensures Be(Zeros(n)) == 0
  {
    if n > 0 {
      assert Zeros(n)[..n - 1] == Zeros(n - 1);
      BeZeros(n - 1);
    }
  }

  lemma {:induction false} BeBytesRoundTrip(v: nat, n: nat)
    requires v < Pow256(n)
    ensures Be(BeBytes(v, n)) == v
  {
    if n > 0 {
      BeBytesRoundTrip(v / 256, n - 1);
      assert BeBytes(v, n)[..n - 1] == BeBytes(v / 256, n - 1);
    }
  }

  lemma {:induction false} BeRoundTrip(s: bytes)
    ensures BeBytes(Be(s), |s|) == s
  {
    if s != [] {
      var front := s[..|s| - 1];
      BeRoundTrip(front);
      assert Be(s) / 256 == Be(front) && Be(s) % 256 == s[|s| - 1];
    }
  }

  /** A 32-bit vector is determined by its integer value. */
  lemma BitsDetermined(a: bv32, b: bv32)
    requires a as int == b as int
    ensures a == b
  {
    assert (a as int) as bv32 == a;
    assert (b as int) as bv32 == b;
  }
}
