/**
 Self-delimiting binary formats as a printer and a parser that undo each other.
 The serialization of transactions and blocks (BIP 144, sections "Serialization" and
 "Hashes") is put together from the few combinators below, and each combinator keeps
 both laws.
 */
module Codecs {
  import opened Bytes
  import opened Wrappers

  datatype Codec<!T> = Codec(encode: T -> bytes, decode: bytes -> Option<(T, bytes)>, fits: T -> bool)

  /** Parsing what was printed, whatever follows it, gives the value and the rest. */
  ghost predicate ParsesPrinted<T(!new)>(c: Codec<T>) {
    forall x: T, rest: bytes {:trigger c.decode(c.encode(x) + rest)} ::
      c.fits(x) ==> c.decode(c.encode(x) + rest) == Some((x, rest))
  }

  /** A parse only succeeds on the printed form of its result: one value, one encoding. */
  ghost predicate PrintsParsed<T(!new)>(c: Codec<T>) {
    forall s: bytes {:trigger c.decode(s)} :: c.decode(s).Some? ==>
      c.fits(c.decode(s).value.0) && s == c.encode(c.decode(s).value.0) + c.decode(s).value.1
  }

  ghost predicate Lawful<T(!new)>(c: Codec<T>) {
    ParsesPrinted(c) && PrintsParsed(c)
  }

  /** The parse of a whole byte string, with nothing left over. */
  function ParseAll<T>(c: Codec<T>, s: bytes): Option<T> {
    match c.decode(s)
    case Some((x, rest)) => if rest == [] then Some(x) else None
    case None => None
  }

  lemma ParseAllOfPrint<T(!new)>(c: Codec<T>, x: T)
    requires Lawful(c) && c.fits(x)
    ensures ParseAll(c, c.encode(x)) == Some(x)
  {
    assert c.encode(x) + [] == c.encode(x);
    assert c.decode(c.encode(x) + []) == Some((x, []));
  }

  lemma PrintOfParseAll<T(!new)>(c: Codec<T>, s: bytes)
    requires Lawful(c) && ParseAll(c, s).Some?
    ensures c.fits(ParseAll(c, s).value) && c.encode(ParseAll(c, s).value) == s
  {
    assert c.encode(ParseAll(c, s).value) + [] == c.encode(ParseAll(c, s).value);
  }

  // Fixed-width fields

  function ParseFixed(n: nat, s: bytes): Option<(bytes, bytes)> {
    if |s| < n then None else Some((s[..n], s[n..]))
  }

  function Fixed(n: nat): Codec<bytes> {
    Codec((x: bytes) => x, (s: bytes) => ParseFixed(n, s), (x: bytes) => |x| == n)
  }

  lemma FixedLawful(n: nat)
    ensures Lawful(Fixed(n))
  {
    var c := Fixed(n);
    forall x: bytes, rest: bytes | c.fits(x) ensures c.decode(c.encode(x) + rest) == Some((x, rest)) {
      assert (x + rest)[..n] == x && (x + rest)[n..] == rest;
    }
    forall s: bytes | c.decode(s).Some?
      ensures c.fits(c.decode(s).value.0) && s == c.encode(c.decode(s).value.0) + c.decode(s).value.1
    {
    }
  }

  function ParseUint(n: nat, s: bytes): Option<(nat, bytes)> {
    if |s| < n then None else Some((Le(s[..n]), s[n..]))
  }

  /** An unsigned little-endian integer of n bytes. */
  function Uint(n: nat): Codec<nat> {
    Codec((v: nat) => LeBytes(v, n), (s: bytes) => ParseUint(n, s), (v: nat) => v < Pow256(n))
  }

  lemma UintLawful(n: nat)
    ensures Lawful(Uint(n))
  {
    var c := Uint(n);
    forall v: nat, rest: bytes | c.fits(v) ensures c.decode(c.encode(v) + rest) == Some((v, rest)) {
      LeBytesRoundTrip(v, n);
      var p := LeBytes(v, n);
      assert (p + rest)[..n] == p && (p + rest)[n..] == rest;
    }
    forall s: bytes | c.decode(s).Some?
      ensures c.fits(c.decode(s).value.0) && s == c.encode(c.decode(s).value.0) + c.decode(s).value.1
    {
      LeRoundTrip(s[..n]);
      assert s == s[..n] + s[n..];
    }
  }

  // CompactSize

  const COMPACT_LIMIT: nat := 0x1_0000_0000_0000_0000

  function PrintCompactSize(v: nat): bytes {
    if v < 0xfd then [v]
    else if v < 0x1_0000 then [0xfd] + LeBytes(v, 2)
    else if v < 0x1_0000_0000 then [0xfe] + LeBytes(v, 4)
    else [0xff] + LeBytes(v, 8)
  }

  /** Reads a CompactSize count; an encoding longer than necessary is an error. */
  function ParseCompactSize(s: bytes): Option<(nat, bytes)> {
    if s == [] then None
    else if s[0] < 0xfd then Some((s[0], s[1..]))
    else if s[0] == 0xfd then AtLeast(ParseUint(2, s[1..]), 0xfd)
    else if s[0] == 0xfe then AtLeast(ParseUint(4, s[1..]), 0x1_0000)
    else AtLeast(ParseUint(8, s[1..]), 0x1_0000_0000)
  }

  function AtLeast(r: Option<(nat, bytes)>, least: nat): Option<(nat, bytes)> {
    match r
    case Some((v, rest)) => if v < least then None else r
    case None => None
  }

  const COMPACT_SIZE: Codec<nat> := Codec(PrintCompactSize, ParseCompactSize, (v: nat) => v < COMPACT_LIMIT)

  lemma CompactSizeLawful()
    ensures Lawful(COMPACT_SIZE)
  {
    Pow256Values();
    forall v: nat, rest: bytes | COMPACT_SIZE.fits(v)
      ensures COMPACT_SIZE.decode(COMPACT_SIZE.encode(v) + rest) == Some((v, rest))
    {
      PrintedSizeParses(v, rest);
    }
    forall s: bytes | COMPACT_SIZE.decode(s).Some?
      ensures COMPACT_SIZE.fits(COMPACT_SIZE.decode(s).value.0)
      ensures s == COMPACT_SIZE.encode(COMPACT_SIZE.decode(s).value.0) + COMPACT_SIZE.decode(s).value.1
    {
      ParsedSizePrints(s);
    }
  }

  /** How a count is written: one byte, or a marker and the count in two, four or eight bytes. */
  lemma CompactSizeForm(v: nat)
    requires v < COMPACT_LIMIT
    ensures v < 0xfd ==> PrintCompactSize(v) == [v]
    ensures v >= 0xfd ==>
              var s := PrintCompactSize(v);
              && Le(s[1..]) == v
              && (|s|, s[0]) == if v <= 0xffff then (3, 0xfd) else if v <= 0xffff_ffff then (5, 0xfe) else (9, 0xff)
  {
    Pow256Values();
    if v >= 0xfd {
      LeBytesRoundTrip(v, if v <= 0xffff then 2 else if v <= 0xffff_ffff then 4 else 8);
    }
  }

  lemma PrintedSizeParses(v: nat, rest: bytes)
    requires v < COMPACT_LIMIT
    ensures ParseCompactSize(PrintCompactSize(v) + rest) == Some((v, rest))
  {
    Pow256Values();
    var s := PrintCompactSize(v) + rest;
    if v >= 0xfd {
      var n := if v < 0x1_0000 then 2 else if v < 0x1_0000_0000 then 4 else 8;
      assert s[1..] == LeBytes(v, n) + rest;
      UintLawful(n);
      assert Uint(n).decode(Uint(n).encode(v) + rest) == Some((v, rest));
    }
  }

  lemma ParsedSizePrints(s: bytes)
    requires ParseCompactSize(s).Some?
    ensures ParseCompactSize(s).value.0 < COMPACT_LIMIT
    ensures s == PrintCompactSize(ParseCompactSize(s).value.0) + ParseCompactSize(s).value.1
  {
    Pow256Values();
    if s[0] >= 0xfd {
      var n := if s[0] == 0xfd then 2 else if s[0] == 0xfe then 4 else 8;
      LeRoundTrip(s[1..][..n]);
      assert s == [s[0]] + s[1..][..n] + s[1..][n..];
    } else {
      assert s == [s[0]] + s[1..];
    }
  }

  // Sequencing and renaming

  function ParsePair<A, B>(a: Codec<A>, b: Codec<B>, s: bytes): Option<((A, B), bytes)> {
    match a.decode(s)
    case None => None
    case Some((x, r)) =>
      match b.decode(r)
      case None => None
      case Some((y, rest)) => Some(((x, y), rest))
  }

  function Pair<A, B>(a: Codec<A>, b: Codec<B>): Codec<(A, B)> {
    Codec((p: (A, B)) => a.encode(p.0) + b.encode(p.1),
          (s: bytes) => ParsePair(a, b, s),
          (p: (A, B)) => a.fits(p.0) && b.fits(p.1))
  }

  lemma PairLawful<A(!new), B(!new)>(a: Codec<A>, b: Codec<B>)
    requires Lawful(a) && Lawful(b)
    ensures Lawful(Pair(a, b))
  {
    var c := Pair(a, b);
    forall p: (A, B), rest: bytes | c.fits(p) ensures c.decode(c.encode(p) + rest) == Some((p, rest)) {
      var tail := b.encode(p.1) + rest;
      assert c.encode(p) + rest == a.encode(p.0) + tail;
      assert a.decode(a.encode(p.0) + tail) == Some((p.0, tail));
      assert b.decode(b.encode(p.1) + rest) == Some((p.1, rest));
    }
    forall s: bytes | c.decode(s).Some?
      ensures c.fits(c.decode(s).value.0) && s == c.encode(c.decode(s).value.0) + c.decode(s).value.1
    {
      var (x, r) := a.decode(s).value;
      var (y, rest) := b.decode(r).value;
      assert s == a.encode(x) + (b.encode(y) + rest);
    }
  }

  function ParseMap<A, B>(c: Codec<A>, to: A -> B, s: bytes): Option<(B, bytes)> {
    match c.decode(s)
    case None => None
    case Some((x, rest)) => Some((to(x), rest))
  }

  /** The same format for a type that corresponds one to one. */
  function Iso<A, B>(c: Codec<A>, to: A -> B, from: B -> A): Codec<B> {
    Codec((y: B) => c.encode(from(y)), (s: bytes) => ParseMap(c, to, s), (y: B) => c.fits(from(y)))
  }

  lemma IsoLawful<A(!new), B(!new)>(c: Codec<A>, to: A -> B, from: B -> A)
    requires Lawful(c)
    requires forall x :: from(to(x)) == x
    requires forall y :: to(from(y)) == y
    ensures Lawful(Iso(c, to, from))
  {
    var d := Iso(c, to, from);
    forall y: B, rest: bytes | d.fits(y) ensures d.decode(d.encode(y) + rest) == Some((y, rest)) {
      assert c.decode(c.encode(from(y)) + rest) == Some((from(y), rest));
    }
    forall s: bytes | d.decode(s).Some?
      ensures d.fits(d.decode(s).value.0) && s == d.encode(d.decode(s).value.0) + d.decode(s).value.1
    {
      var (x, rest) := c.decode(s).value;
      assert from(to(x)) == x;
    }
  }

  // Repetition

  function PrintMany<T>(c: Codec<T>, xs: seq<T>): bytes {
    if xs == [] then [] else c.encode(xs[0]) + PrintMany(c, xs[1..])
  }

  function ParseMany<T>(c: Codec<T>, n: nat, s: bytes): Option<(seq<T>, bytes)> {
    if n == 0 then Some(([], s))
    else match c.decode(s)
      case None => None
      case Some((x, r)) =>
        match ParseMany(c, n - 1, r)
        case None => None
        case Some((xs, rest)) => Some(([x] + xs, rest))
  }

  predicate AllFit<T>(c: Codec<T>, xs: seq<T>) {
    forall i :: 0 <= i < |xs| ==> c.fits(xs[i])
  }

  lemma {:induction false} ManyParsesPrinted<T(!new)>(c: Codec<T>, xs: seq<T>, rest: bytes)
    requires Lawful(c) && AllFit(c, xs)
    ensures ParseMany(c, |xs|, PrintMany(c, xs) + rest) == Some((xs, rest))
  {
    if xs == [] {
      assert [] + rest == rest;
    } else {
      var tail := PrintMany(c, xs[1..]) + rest;
      ManyParsesPrinted(c, xs[1..], rest);
      assert PrintMany(c, xs) + rest == c.encode(xs[0]) + tail;
      assert c.fits(xs[0]);
      assert c.decode(c.encode(xs[0]) + tail) == Some((xs[0], tail));
      assert [xs[0]] + xs[1..] == xs;
    }
  }

  lemma {:induction false} ManyPrintsParsed<T(!new)>(c: Codec<T>, n: nat, s: bytes)
    requires Lawful(c) && ParseMany(c, n, s).Some?
    ensures var (xs, rest) := ParseMany(c, n, s).value;
            |xs| == n && AllFit(c, xs) && s == PrintMany(c, xs) + rest
  {
    if n > 0 {
      var (x, r) := c.decode(s).value;
      ManyPrintsParsed(c, n - 1, r);
      var (xs, rest) := ParseMany(c, n - 1, r).value;
      assert ([x] + xs)[1..] == xs;
      assert s == c.encode(x) + (PrintMany(c, xs) + rest);
    } else {
      assert s == [] + s;
    }
  }

  function ParseCounted<T>(c: Codec<T>, s: bytes): Option<(seq<T>, bytes)> {
    match ParseCompactSize(s)
    case None => None
    case Some((n, r)) => ParseMany(c, n, r)
  }

  /** A CompactSize count and that many items. */
  function Counted<T>(c: Codec<T>): Codec<seq<T>> {
    Codec((xs: seq<T>) => PrintCompactSize(|xs|) + PrintMany(c, xs),
          (s: bytes) => ParseCounted(c, s),
          (xs: seq<T>) => |xs| < COMPACT_LIMIT && AllFit(c, xs))
  }

  lemma CountedLawful<T(!new)>(c: Codec<T>)
    requires Lawful(c)
    ensures Lawful(Counted(c))
  {
    var d := Counted(c);
    forall xs: seq<T>, rest: bytes | d.fits(xs) ensures d.decode(d.encode(xs) + rest) == Some((xs, rest)) {
      var tail := PrintMany(c, xs) + rest;
      assert d.encode(xs) + rest == PrintCompactSize(|xs|) + tail;
      PrintedSizeParses(|xs|, tail);
      ManyParsesPrinted(c, xs, rest);
    }
    forall s: bytes | d.decode(s).Some?
      ensures d.fits(d.decode(s).value.0) && s == d.encode(d.decode(s).value.0) + d.decode(s).value.1
    {
      var (n, r) := ParseCompactSize(s).value;
      ParsedSizePrints(s);
      ManyPrintsParsed(c, n, r);
      var (xs, rest) := ParseMany(c, n, r).value;
      assert s == PrintCompactSize(n) + (PrintMany(c, xs) + rest);
    }
  }

  // Byte strings with a CompactSize length

  function ParseVarBytes(s: bytes): Option<(bytes, bytes)> {
    match ParseCompactSize(s)
    case None => None
    case Some((n, r)) => ParseFixed(n, r)
  }

  const VAR_BYTES: Codec<bytes> :=
    Codec((x: bytes) => PrintCompactSize(|x|) + x, ParseVarBytes, (x: bytes) => |x| < COMPACT_LIMIT)

  lemma VarBytesParse(x: bytes, rest: bytes)
    requires |x| < COMPACT_LIMIT
    ensures ParseVarBytes(PrintCompactSize(|x|) + x + rest) == Some((x, rest))
  {
    assert PrintCompactSize(|x|) + x + rest == PrintCompactSize(|x|) + (x + rest);
    PrintedSizeParses(|x|, x + rest);
    assert (x + rest)[..|x|] == x && (x + rest)[|x|..] == rest;
  }

  lemma VarBytesPrint(s: bytes)
    requires ParseVarBytes(s).Some?
    ensures var (x, rest) := ParseVarBytes(s).value;
            |x| < COMPACT_LIMIT && s == PrintCompactSize(|x|) + x + rest
  {
    var (n, r) := ParseCompactSize(s).value;
    ParsedSizePrints(s);
    assert r == r[..n] + r[n..];
    assert s == PrintCompactSize(n) + r[..n] + r[n..];
  }

  lemma VarBytesLawful()
    ensures Lawful(VAR_BYTES)
  {
    forall x: bytes, rest: bytes | VAR_BYTES.fits(x)
      ensures VAR_BYTES.decode(VAR_BYTES.encode(x) + rest) == Some((x, rest))
    {
      VarBytesParse(x, rest);
    }
    forall s: bytes | VAR_BYTES.decode(s).Some?
      ensures VAR_BYTES.fits(VAR_BYTES.decode(s).value.0)
      ensures s == VAR_BYTES.encode(VAR_BYTES.decode(s).value.0) + VAR_BYTES.decode(s).value.1
    {
      VarBytesPrint(s);
    }
  }
}
