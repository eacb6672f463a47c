/**
 The coinbase builder: script numbers and data pushes (BIP 34, section "Specification",
 puts the height first), and the coinbase transaction itself, with the 32-byte zero
 witness value of BIP 141, section "Commitment structure", when there is a commitment.
 */
module Coinbase {
  import opened Bytes
  import opened Wrappers
  import opened Codecs
  import opened Transactions

  datatype PoolError = Config(message: string) | Daemon(message: string) | Internal(message: string)

  const EMPTY_PAYOUT: PoolError := Config("coinbase payout script_pubkey cannot be empty")

  // Script numbers

  /** The bytes of v, least significant first, with no zero byte at the top. */
  function Magnitude(v: nat): bytes {
    if v == 0 then [] else [v % 256] + Magnitude(v / 256)
  }

  function ScriptNum(v: nat): bytes {
    var m := Magnitude(v);
    if m != [] && m[|m| - 1] >= 128 then m + [0] else m
  }

  lemma NextDigit(encoded: bytes, v: nat)
    requires v > 0
    ensures encoded + Magnitude(v) == (encoded + [v % 256]) + Magnitude(v / 256)
  {
    assert Magnitude(v) == [v % 256] + Magnitude(v / 256);
  }

  /** `encode_script_num`. */
  method EncodeScriptNum(value: u64) returns (encoded: bytes)
    ensures encoded == ScriptNum(value)
  {
    if value == 0 {
      return [];
    }
    encoded := [];
    var remaining := value;
    while remaining > 0
      invariant Magnitude(value) == encoded + Magnitude(remaining)
    {
      NextDigit(encoded, remaining);
      encoded := encoded + [remaining % 256];
      remaining := remaining / 256;
    }
    if encoded[|encoded| - 1] >= 128 {
      encoded := encoded + [0];
    }
  }

  /** The consensus reading of a script number: little-endian, the top bit of the last byte is the sign. */
  function ScriptNumValue(s: bytes): int {
    if s == [] then 0
    else if s[|s| - 1] < 128 then Le(s)
    else -((Le(s) - 128 * Pow256(|s| - 1)) as int)
  }

  lemma {:induction false} MagnitudeValue(v: nat)
    ensures Le(Magnitude(v)) == v
    ensures v > 0 ==> Magnitude(v) != [] && Pow256(|Magnitude(v)| - 1) <= v
    ensures v < Pow256(|Magnitude(v)|)
  {
    if v > 0 {
      MagnitudeValue(v / 256);
      assert Magnitude(v)[1..] == Magnitude(v / 256);
      LeRoundTrip(Magnitude(v));
    }
  }

  lemma {:induction false} LeSnoc(s: bytes, b: byte)
    ensures Le(s + [b]) == Le(s) + b * Pow256(|s|)
  {
    if s == [] {
      assert s + [b] == [b];
    } else {
      LeSnoc(s[1..], b);
      assert (s + [b])[1..] == s[1..] + [b];
      assert 256 * (b * Pow256(|s| - 1)) == b * Pow256(|s|);
    }
  }

  /** Every script number reads back as its value, and is never read as negative. */
  lemma ScriptNumRoundTrip(v: nat)
    ensures ScriptNumValue(ScriptNum(v)) == v
    ensures ScriptNum(v) != [] ==> ScriptNum(v)[|ScriptNum(v)| - 1] < 128
  {
    MagnitudeValue(v);
    LeSnoc(Magnitude(v), 0);
  }

  lemma TopByteBound(s: bytes)
    requires s != []
    ensures s[|s| - 1] < 128 ==> Le(s) < 128 * Pow256(|s| - 1)
    ensures s[|s| - 1] >= 128 ==> Le(s) >= 128 * Pow256(|s| - 1)
  {
    var front, top := s[..|s| - 1], s[|s| - 1];
    assert s == front + [top];
    LeSnoc(front, top);
    LeRoundTrip(front);
    var p := Pow256(|front|);
    if top < 128 {
      MulMonotone(top, 127, p);
    } else {
      MulMonotone(128, top, p);
    }
  }

  /** A script number of k bytes is at least 128 * 256^(k-2): one byte less would not hold it. */
  lemma ScriptNumIsLarge(v: nat)
    requires |ScriptNum(v)| >= 2
    ensures v >= 128 * Pow256(|ScriptNum(v)| - 2)
  {
    MagnitudeValue(v);
    var m := Magnitude(v);
    if m[|m| - 1] >= 128 {
      TopByteBound(m);
    } else {
      assert Pow256(|m| - 1) == 256 * Pow256(|m| - 2);
    }
  }

  /** No shorter byte string reads as the same number. */
  lemma ScriptNumMinimal(v: nat, s: bytes)
    requires ScriptNumValue(s) == v
    ensures |ScriptNum(v)| <= |s|
  {
    if s != [] && |s| < |ScriptNum(v)| {
      TopByteBound(s);
      ScriptNumIsLarge(v);
      Pow256Monotone(|s| - 1, |ScriptNum(v)| - 2);
    }
  }

  lemma ScriptNumLength(v: nat, n: nat)
    requires v < Pow256(n)
    ensures |ScriptNum(v)| <= n + 1
  {
    MagnitudeValue(v);
    if |Magnitude(v)| > n {
      Pow256Monotone(n, |Magnitude(v)| - 1);
    }
  }

  /** A 64-bit height takes at most nine bytes. */
  lemma ScriptNumFits(v: u64)
    ensures |ScriptNum(v)| <= 9
  {
    Pow256Values();
    ScriptNumLength(v, 8);
  }

  // Data pushes

  /** What `push_data` writes before the data; the four-byte length is a truncating cast. */
  function PushPrefix(len: nat): bytes {
    if len <= 0x4b then [len]
    else if len <= 0xff then [0x4c, len]
    else if len <= 0xffff then [0x4d] + LeBytes(len, 2)
    else [0x4e] + LeBytes(len % 0x1_0000_0000, 4)
  }

  function Push(data: bytes): bytes {
    PushPrefix(|data|) + data
  }

  /** `push_data`, as an append to the script built so far. */
  method PushData(script: bytes, data: bytes) returns (buf: bytes)
    ensures buf == script + Push(data)
  {
    buf := script;
    var len := |data|;
    if len <= 0x4b {
      buf := buf + [len];
    } else if len <= 0xff {
      buf := buf + [0x4c];
      buf := buf + [len];
    } else if len <= 0xffff {
      buf := buf + [0x4d];
      buf := buf + LeBytes(len, 2);
    } else {
      buf := buf + [0x4e];
      buf := buf + LeBytes(len % 0x1_0000_0000, 4);
    }
    assert buf == script + PushPrefix(len);
    buf := buf + data;
  }

  /** Reads one push: opcodes up to 0x4b carry the length, 0x4c to 0x4e are followed by it. */
  function ParsePush(s: bytes): Option<(bytes, bytes)> {
    if s == [] then None
    else if s[0] <= 0x4b then ParseFixed(s[0], s[1..])
    else if s[0] == 0x4c then ParseSized(1, s[1..])
    else if s[0] == 0x4d then ParseSized(2, s[1..])
    else if s[0] == 0x4e then ParseSized(4, s[1..])
    else None
  }

  function ParseSized(width: nat, s: bytes): Option<(bytes, bytes)> {
    match ParseUint(width, s)
    case None => None
    case Some((n, rest)) => ParseFixed(n, rest)
  }

  lemma SizedRoundTrip(width: nat, len: nat, s: bytes)
    requires len < Pow256(width)
    ensures ParseSized(width, LeBytes(len, width) + s) == ParseFixed(len, s)
  {
    UintLawful(width);
    assert Uint(width).decode(Uint(width).encode(len) + s) == Some((len, s));
  }

  lemma PushReadsLength(data: bytes, rest: bytes)
    ensures ParsePush(Push(data) + rest)
         == ParseFixed(if |data| <= 0xffff then |data| else |data| % 0x1_0000_0000, data + rest)
  {
    assert Push(data) + rest == PushPrefix(|data|) + (data + rest);
    PrefixReads(|data|, data + rest);
  }

  lemma OpcodeReads(width: nat, opcode: byte, n: nat, tail: bytes)
    requires (width, opcode) in {(1, 0x4c), (2, 0x4d), (4, 0x4e)} && n < Pow256(width)
    ensures ParsePush([opcode] + LeBytes(n, width) + tail) == ParseFixed(n, tail)
  {
    var s := [opcode] + LeBytes(n, width) + tail;
    assert s[1..] == LeBytes(n, width) + tail;
    SizedRoundTrip(width, n, tail);
  }

  lemma PrefixReads(len: nat, tail: bytes)
    ensures ParsePush(PushPrefix(len) + tail)
         == ParseFixed(if len <= 0xffff then len else len % 0x1_0000_0000, tail)
  {
    Pow256Values();
    if len <= 0x4b {
      assert (PushPrefix(len) + tail)[1..] == tail;
    } else if len <= 0xff {
      assert PushPrefix(len) == [0x4c] + LeBytes(len, 1);
      OpcodeReads(1, 0x4c, len, tail);
    } else if len <= 0xffff {
      OpcodeReads(2, 0x4d, len, tail);
    } else {
      OpcodeReads(4, 0x4e, len % 0x1_0000_0000, tail);
    }
  }

  /** A push delimits itself exactly when its length survives the cast to 32 bits. */
  lemma PushDelimits(data: bytes, rest: bytes)
    ensures ParsePush(Push(data) + rest) == Some((data, rest)) <==> |data| < 0x1_0000_0000
  {
    PushReadsLength(data, rest);
    assert (data + rest)[..|data|] == data && (data + rest)[|data|..] == rest;
  }

  // scriptSig

  function ScriptSig(height: u64, auxFlags: Option<bytes>): bytes {
    Push(ScriptNum(height)) + if auxFlags.Some? && auxFlags.value != [] then Push(auxFlags.value) else []
  }

  /** `build_coinbase_script_sig`. */
  method BuildCoinbaseScriptSig(height: u64, auxFlags: Option<bytes>) returns (scriptSig: bytes)
    ensures scriptSig == ScriptSig(height, auxFlags)
  {
    var num := EncodeScriptNum(height);
    scriptSig := PushData([], num);
    assert scriptSig == Push(ScriptNum(height));
    if auxFlags.Some? {
      if auxFlags.value != [] {
        scriptSig := PushData(scriptSig, auxFlags.value);
      }
    }
  }

  /** The height and the pushed data of a coinbase script of one or two pushes. */
  function ParseScriptSig(s: bytes): Option<(int, Option<bytes>)> {
    match ParsePush(s)
    case None => None
    case Some((num, r)) =>
      if r == [] then Some((ScriptNumValue(num), None))
      else match ParsePush(r)
        case Some((data, rest)) => if rest == [] then Some((ScriptNumValue(num), Some(data))) else None
        case None => None
  }

  /** The whole script parses back to the height and to the flags, empty flags counting as none. */
  lemma ScriptSigRoundTrip(height: u64, auxFlags: Option<bytes>)
    requires auxFlags.Some? ==> |auxFlags.value| < 0x1_0000_0000
    ensures ParseScriptSig(ScriptSig(height, auxFlags))
         == Some((height, if auxFlags.Some? && auxFlags.value != [] then auxFlags else None))
  {
    ScriptNumRoundTrip(height);
    ScriptNumFits(height);
    var num := ScriptNum(height);
    if auxFlags.Some? && auxFlags.value != [] {
      var second := Push(auxFlags.value);
      PushDelimits(num, second);
      PushDelimits(auxFlags.value, []);
      assert second + [] == second;
    } else {
      PushDelimits(num, []);
    }
  }

  // The transaction

  datatype CoinbaseInputs = CoinbaseInputs(
    height: u64,
    coinbaseValue: u64,
    payoutScriptPubkey: bytes,
    auxFlags: Option<bytes>,
    witnessCommitment: Option<bytes>)

  /** Byte strings a 64-bit machine can hold, with room to append. */
  predicate MachineSized(s: bytes) {
    |s| < 0x8000_0000_0000_0000
  }

  predicate InputsMachineSized(i: CoinbaseInputs) {
    && MachineSized(i.payoutScriptPubkey)
    && (i.auxFlags.Some? ==> MachineSized(i.auxFlags.value))
    && (i.witnessCommitment.Some? ==> MachineSized(i.witnessCommitment.value))
  }

  function WitnessNonce(): Witness {
    [Zeros(32)]
  }

  function CoinbaseOutputs(i: CoinbaseInputs): seq<Output> {
    [Output(i.coinbaseValue, i.payoutScriptPubkey)]
    + if i.witnessCommitment.Some? then [Output(0, i.witnessCommitment.value)] else []
  }

  function CoinbaseTx(i: CoinbaseInputs): Transaction {
    Transaction(
      1,
      [Input(Zeros(32), 0xffff_ffff, ScriptSig(i.height, i.auxFlags), 0xffff_ffff)],
      CoinbaseOutputs(i),
      [if i.witnessCommitment.Some? then WitnessNonce() else []],
      0)
  }

  lemma ScriptSigLength(height: u64, auxFlags: Option<bytes>)
    ensures |ScriptSig(height, auxFlags)| <= 15 + if auxFlags.Some? then |auxFlags.value| else 0
  {
    ScriptNumFits(height);
  }

  lemma InputFits(script: bytes)
    requires |script| < COMPACT_LIMIT
    ensures INPUT_CODEC.fits(Input(Zeros(32), 0xffff_ffff, script, 0xffff_ffff))
  {
    Pow256Values();
  }

  lemma OutputsFit(i: CoinbaseInputs)
    requires InputsMachineSized(i)
    ensures AllFit(OUTPUT_CODEC, CoinbaseOutputs(i))
  {
    Pow256Values();
  }

  lemma NonceIsWitness()
    ensures BIP144.stack.fits(WitnessNonce()) && BIP144.stack.fits([])
  {
    assert AllFit(VAR_BYTES, WitnessNonce());
  }

  lemma CoinbaseFits(i: CoinbaseInputs)
    requires InputsMachineSized(i)
    ensures BIP144.Fits(CoinbaseTx(i))
  {
    ScriptSigLength(i.height, i.auxFlags);
    Pow256Values();
    InputFits(ScriptSig(i.height, i.auxFlags));
    OutputsFit(i);
    NonceIsWitness();
    var tx := CoinbaseTx(i);
    assert tx.inputs == [tx.inputs[0]];
  }

  lemma CoinbaseParsesBack(i: CoinbaseInputs)
    requires InputsMachineSized(i)
    ensures ParseAll(TX_CODEC, TX_CODEC.encode(CoinbaseTx(i))) == Some(CoinbaseTx(i))
  {
    TxLawful();
    CoinbaseFits(i);
    ParseAllOfPrint(TX_CODEC, CoinbaseTx(i));
  }

  // What the builder promises

  /** One input without a previous output, and the fixed version, sequence and lock time. */
  predicate IsCoinbase(tx: Transaction) {
    && tx.version == 1 && tx.lockTime == 0 && |tx.inputs| == 1
    && tx.inputs[0].prevTxid == Zeros(32) && tx.inputs[0].prevVout == 0xffff_ffff
    && tx.inputs[0].sequence == 0xffff_ffff
  }

  /** The first output pays the value to the script; a second one, of value zero, is there exactly for a commitment. */
  predicate PaysOut(outs: seq<Output>, value: nat, script: bytes, commitment: Option<bytes>) {
    && |outs| == (if commitment.Some? then 2 else 1)
    && outs[0].value == value && outs[0].scriptPubkey == script
    && (commitment.Some? ==> outs[1].value == 0 && outs[1].scriptPubkey == commitment.value)
  }

  /** The bytes parse to a coinbase with these outputs, and with the 32-byte witness exactly for a commitment. */
  predicate BuiltAs(s: bytes, i: CoinbaseInputs) {
    var tx := ParseAll(TX_CODEC, s);
    && tx.Some? && IsCoinbase(tx.value)
    && PaysOut(tx.value.outputs, i.coinbaseValue, i.payoutScriptPubkey, i.witnessCommitment)
    && tx.value.witnesses == [if i.witnessCommitment.Some? then [Zeros(32)] else []]
    && (i.auxFlags.None? || |i.auxFlags.value| < 0x1_0000_0000 ==>
          ParseScriptSig(tx.value.inputs[0].scriptSig)
          == Some((i.height, if i.auxFlags.Some? && i.auxFlags.value != [] then i.auxFlags else None)))
  }

  lemma OutputsPay(i: CoinbaseInputs)
    ensures PaysOut(CoinbaseOutputs(i), i.coinbaseValue, i.payoutScriptPubkey, i.witnessCommitment)
  {
  }

  lemma CoinbaseBuiltAs(i: CoinbaseInputs)
    requires InputsMachineSized(i)
    ensures BuiltAs(TX_CODEC.encode(CoinbaseTx(i)), i)
  {
    CoinbaseParsesBack(i);
    OutputsPay(i);
    if i.auxFlags.None? || |i.auxFlags.value| < 0x1_0000_0000 {
      ScriptSigRoundTrip(i.height, i.auxFlags);
    }
  }

  /** `build_coinbase_transaction`. */
  method BuildCoinbaseTransaction(i: CoinbaseInputs) returns (r: Result<bytes, PoolError>)
    ensures i.payoutScriptPubkey == [] ==> r == Err(EMPTY_PAYOUT)
    ensures i.payoutScriptPubkey != [] ==> r == Ok(TX_CODEC.encode(CoinbaseTx(i)))
    ensures r.Ok? && InputsMachineSized(i) ==> BuiltAs(r.value, i)
  {
    if i.payoutScriptPubkey == [] {
      return Err(EMPTY_PAYOUT);
    }
    var scriptSig := BuildCoinbaseScriptSig(i.height, i.auxFlags);
    var outputs := [Output(i.coinbaseValue, i.payoutScriptPubkey)];
    var witnesses: Witness := [];
    if i.witnessCommitment.Some? {
      outputs := outputs + [Output(0, i.witnessCommitment.value)];
      witnesses := [Zeros(32)];
    }
    var tx := Transaction(1, [Input(Zeros(32), 0xffff_ffff, scriptSig, 0xffff_ffff)], outputs, [witnesses], 0);
    assert tx == CoinbaseTx(i);
    if InputsMachineSized(i) {
      CoinbaseBuiltAs(i);
    }
    return Ok(TX_CODEC.encode(tx));
  }

  /** `serialize_no_witness`, field by field. */
  method SerializeNoWitness(tx: Transaction) returns (buf: bytes)
    ensures buf == PrintLegacy(tx)
  {
    var layout := BIP144;
    buf := [];
    buf := buf + layout.version.encode(tx.version);
    buf := buf + layout.inputs.encode(tx.inputs);
    buf := buf + layout.outputs.encode(tx.outputs);
    buf := buf + layout.version.encode(tx.lockTime);
    assert [] + layout.version.encode(tx.version) == layout.version.encode(tx.version);
  }
}
