/**
 How the coinbase is cut for the miner: it is built around an 8-byte extranonce
 placeholder, printed without witness data and split at the first occurrence of the
 placeholder. The split is the intended one under an exact condition on the height and
 the flags.
 */
module CoinbaseSplit {
  import opened Bytes
  import opened Wrappers
  import opened Codecs
  import opened Transactions
  import opened Coinbase

  const PLACEHOLDER: bytes := [0xfa, 0xce, 0xb0, 0x0c, 0xde, 0xad, 0xbe, 0xef]

  // First match

  predicate MatchAt(hay: bytes, needle: bytes, i: nat) {
    i + |needle| <= |hay| && hay[i..i + |needle|] == needle
  }

  predicate Contains(hay: bytes, needle: bytes) {
    exists i :: 0 <= i <= |hay| && MatchAt(hay, needle, i)
  }

  function FirstMatchFrom(hay: bytes, needle: bytes, i: nat): (r: Option<nat>)
    requires i <= |hay|
    ensures r.Some? ==> i <= r.value && MatchAt(hay, needle, r.value)
    ensures r.Some? ==> forall j :: i <= j < r.value ==> !MatchAt(hay, needle, j)
    ensures r.None? ==> forall j :: i <= j <= |hay| ==> !MatchAt(hay, needle, j)
    decreases |hay| - i
  {
    if MatchAt(hay, needle, i) then Some(i)
    else if i == |hay| then None
    else FirstMatchFrom(hay, needle, i + 1)
  }

  /** `windows(n).position(..)`: the offset of the first window equal to the needle. */
  function FirstMatch(hay: bytes, needle: bytes): Option<nat> {
    FirstMatchFrom(hay, needle, 0)
  }

  // The coinbase around the extranonce

  /** The fields of the coinbase when `extra` stands where the extranonce goes. */
  function InputsWith(i: CoinbaseInputs, extra: bytes): CoinbaseInputs {
    i.(auxFlags := Some(FlagBytes(i) + extra))
  }

  function FlagBytes(i: CoinbaseInputs): bytes {
    if i.auxFlags.Some? then i.auxFlags.value else []
  }

  /** The hashed form of the coinbase with `extra` pushed right after the flags. */
  function CoinbaseWith(i: CoinbaseInputs, extra: bytes): bytes {
    PrintLegacy(CoinbaseTx(InputsWith(i, extra)))
  }

  /** The bytes before and after the first placeholder. */
  function SplitAtPlaceholder(hay: bytes): Result<(bytes, bytes), PoolError> {
    match FirstMatch(hay, PLACEHOLDER)
    case None => Err(Internal("coinbase transaction missing SV1 extranonce placeholder"))
    case Some(k) => Ok((hay[..k], hay[k + |PLACEHOLDER|..]))
  }

  function CoinbaseParts(i: CoinbaseInputs): Result<(bytes, bytes), PoolError> {
    if i.payoutScriptPubkey == [] then Err(EMPTY_PAYOUT) else SplitAtPlaceholder(CoinbaseWith(i, PLACEHOLDER))
  }

  // Where the placeholder lies

  /** The transaction up to the script: version, input count, null outpoint, script length. */
  function Head(sigLength: nat): bytes {
    LeBytes(1, 4) + [1] + Zeros(32) + LeBytes(0xffff_ffff, 4) + PrintCompactSize(sigLength)
  }

  /** Everything before the height's bytes. */
  function Lead(i: CoinbaseInputs, extraLen: nat): bytes {
    ScriptNumFits(i.height);
    Head(SigLength(i, extraLen)) + [|ScriptNum(i.height)|]
  }

  function SigLength(i: CoinbaseInputs, extraLen: nat): nat {
    1 + |ScriptNum(i.height)| + |Body(i, extraLen)| + extraLen
  }

  /** The second push up to the extranonce: opcode, length bytes and flags. */
  function Body(i: CoinbaseInputs, extraLen: nat): bytes {
    PushPrefix(|FlagBytes(i)| + extraLen) + FlagBytes(i)
  }

  /** Everything after the extranonce: sequence, outputs, lock time. */
  function Rest(outs: seq<Output>): bytes {
    LeBytes(0xffff_ffff, 4) + BIP144.outputs.encode(outs) + LeBytes(0, 4)
  }

  /** The offset at which the placeholder was put. */
  function IntendedOffset(i: CoinbaseInputs): nat {
    |Lead(i, 8)| + |ScriptNum(i.height)| + |Body(i, 8)|
  }

  lemma SigShape(i: CoinbaseInputs, extra: bytes)
    requires extra != []
    ensures |ScriptNum(i.height)| <= 9
    ensures ScriptSig(i.height, Some(FlagBytes(i) + extra))
         == [|ScriptNum(i.height)|] + (ScriptNum(i.height) + (Body(i, |extra|) + extra))
  {
    ScriptNumFits(i.height);
    var num, flags := ScriptNum(i.height), FlagBytes(i);
    assert ScriptSig(i.height, Some(flags + extra)) == Push(num) + Push(flags + extra);
    assert Push(num) == [|num|] + num;
    assert Push(flags + extra) == Body(i, |extra|) + extra;
  }

  lemma InputShape(x: Input)
    ensures BIP144.inputs.encode([x])
         == [1] + (x.prevTxid + (LeBytes(x.prevVout, 4)
                   + (PrintCompactSize(|x.scriptSig|) + x.scriptSig + LeBytes(x.sequence, 4))))
  {
    var c := INPUT_CODEC;
    assert PrintMany(c, [x]) == c.encode(x) + [] == c.encode(x);
    assert c.encode(x) == x.prevTxid + (LeBytes(x.prevVout, 4)
                   + (PrintCompactSize(|x.scriptSig|) + x.scriptSig + LeBytes(x.sequence, 4)));
  }

  lemma LegacyShape(sig: bytes, outs: seq<Output>, witnesses: seq<Witness>)
    ensures PrintLegacy(Transaction(1, [Input(Zeros(32), 0xffff_ffff, sig, 0xffff_ffff)], outs, witnesses, 0))
         == Head(|sig|) + (sig + Rest(outs))
  {
    InputShape(Input(Zeros(32), 0xffff_ffff, sig, 0xffff_ffff));
    LegacyConcat(LeBytes(1, 4), Zeros(32), LeBytes(0xffff_ffff, 4), PrintCompactSize(|sig|), sig,
                 BIP144.outputs.encode(outs), LeBytes(0, 4));
  }

  /** The bytes of one output: eight of value, then the script with its length. */
  lemma OutputShape(o: Output)
    ensures OUTPUT_CODEC.encode(o) == LeBytes(o.value, 8) + (PrintCompactSize(|o.scriptPubkey|) + o.scriptPubkey)
  {
  }

  lemma OutputsShape(a: Output, b: Output)
    ensures BIP144.outputs.encode([a]) == [1] + OUTPUT_CODEC.encode(a)
    ensures BIP144.outputs.encode([a, b]) == [2] + (OUTPUT_CODEC.encode(a) + OUTPUT_CODEC.encode(b))
  {
    ManyOfTwo(OUTPUT_CODEC, a, b);
  }

  lemma ManyOfTwo<T>(c: Codec<T>, a: T, b: T)
    ensures PrintMany(c, [a]) == c.encode(a) && PrintMany(c, [a, b]) == c.encode(a) + c.encode(b)
  {
    assert [a][1..] == [] && [a, b][1..] == [b] && [b][1..] == [];
    assert c.encode(a) + [] == c.encode(a) && c.encode(b) + [] == c.encode(b);
  }

  /** The coinbase outputs, counted: the value to the payout script, and a commitment if there is one. */
  function OutputBytes(value: nat, payout: bytes, commitment: Option<bytes>): bytes {
    var pays := LeBytes(value, 8) + (PrintCompactSize(|payout|) + payout);
    if commitment.None? then [1] + pays
    else [2] + (pays + (Zeros(8) + (PrintCompactSize(|commitment.value|) + commitment.value)))
  }

  lemma NoValue()
    ensures LeBytes(0, 8) == Zeros(8) && LeBytes(0, 4) == Zeros(4)
  {
    assert LeBytes(0, 1) == [0] + LeBytes(0, 0);
    assert LeBytes(0, 2) == [0] + LeBytes(0, 1);
    assert LeBytes(0, 3) == [0] + LeBytes(0, 2);
    assert LeBytes(0, 4) == [0] + LeBytes(0, 3);
    assert LeBytes(0, 5) == [0] + LeBytes(0, 4);
    assert LeBytes(0, 6) == [0] + LeBytes(0, 5);
    assert LeBytes(0, 7) == [0] + LeBytes(0, 6);
    assert LeBytes(0, 8) == [0] + LeBytes(0, 7);
  }

  lemma OnlyPays(value: nat, payout: bytes)
    ensures BIP144.outputs.encode([Output(value, payout)]) == OutputBytes(value, payout, None)
  {
    var pays := Output(value, payout);
    OutputShape(pays);
    OutputsShape(pays, pays);
  }

  lemma PaysAndCommits(value: nat, payout: bytes, commitment: bytes)
    ensures BIP144.outputs.encode([Output(value, payout), Output(0, commitment)])
         == OutputBytes(value, payout, Some(commitment))
  {
    var pays, commits := Output(value, payout), Output(0, commitment);
    OutputShape(pays);
    OutputShape(commits);
    OutputsShape(pays, commits);
    NoValue();
  }

  lemma OutputsListed(i: CoinbaseInputs)
    ensures CoinbaseOutputs(i)
         == if i.witnessCommitment.Some? then
              [Output(i.coinbaseValue, i.payoutScriptPubkey), Output(0, i.witnessCommitment.value)]
            else [Output(i.coinbaseValue, i.payoutScriptPubkey)]
  {
  }

  lemma OutputsAreBytes(i: CoinbaseInputs)
    ensures BIP144.outputs.encode(CoinbaseOutputs(i))
         == OutputBytes(i.coinbaseValue, i.payoutScriptPubkey, i.witnessCommitment)
  {
    OutputsListed(i);
    if i.witnessCommitment.Some? {
      PaysAndCommits(i.coinbaseValue, i.payoutScriptPubkey, i.witnessCommitment.value);
    } else {
      OnlyPays(i.coinbaseValue, i.payoutScriptPubkey);
    }
  }

  /** The hashed form of the coinbase, byte for byte: what the miner hashes for the block's first id. */
  lemma CoinbaseBytes(i: CoinbaseInputs)
    ensures var sig := ScriptSig(i.height, i.auxFlags);
            PrintLegacy(CoinbaseTx(i))
            == [1, 0, 0, 0] + [1] + Zeros(32) + [0xff, 0xff, 0xff, 0xff] + PrintCompactSize(|sig|)
               + (sig + ([0xff, 0xff, 0xff, 0xff]
                         + OutputBytes(i.coinbaseValue, i.payoutScriptPubkey, i.witnessCommitment) + Zeros(4)))
  {
    LegacyShape(ScriptSig(i.height, i.auxFlags), CoinbaseOutputs(i), CoinbaseTx(i).witnesses);
    FourMaxBytes();
    NoValue();
    OutputsAreBytes(i);
  }

  lemma LegacyConcat(v: bytes, txid: bytes, ff: bytes, size: bytes, sig: bytes, outs: bytes, lock: bytes)
    ensures v + ([1] + (txid + (ff + (size + sig + ff)))) + outs + lock
         == v + [1] + txid + ff + size + (sig + (ff + outs + lock))
  {
  }

  /** The printed coinbase, cut into the pieces above, for any extranonce. */
  lemma CoinbaseShape(i: CoinbaseInputs, extra: bytes)
    requires extra != []
    ensures CoinbaseWith(i, extra)
         == Lead(i, |extra|) + (ScriptNum(i.height) + (Body(i, |extra|) + (extra + Rest(CoinbaseOutputs(i)))))
  {
    var inputs := InputsWith(i, extra);
    var sig := ScriptSig(i.height, Some(FlagBytes(i) + extra));
    SigShape(i, extra);
    LegacyShape(sig, CoinbaseOutputs(i), CoinbaseTx(inputs).witnesses);
    assert CoinbaseOutputs(inputs) == CoinbaseOutputs(i);
    assert CoinbaseWith(i, extra) == Head(|sig|) + (sig + Rest(CoinbaseOutputs(i)));
    var num, body := ScriptNum(i.height), Body(i, |extra|);
    assert |sig| == SigLength(i, |extra|);
    Regroup(Head(|sig|), [|num|], num, body, extra, Rest(CoinbaseOutputs(i)));
  }

  lemma Regroup(a: bytes, size: bytes, num: bytes, body: bytes, extra: bytes, rest: bytes)
    ensures a + (size + (num + (body + extra)) + rest) == a + size + (num + (body + (extra + rest)))
  {
  }

  /** A string made of a cut's pieces holds the extra bytes right after the first three. */
  lemma CutAround(s: bytes, o: nat, lead: bytes, num: bytes, body: bytes, extra: bytes, rest: bytes)
    requires s == lead + (num + (body + (extra + rest))) && o == |lead| + |num| + |body|
    ensures o + |extra| <= |s| && MatchAt(s, extra, o)
    ensures s[..o] == lead + (num + body) && s[o + |extra|..] == rest
  {
    assert s == (lead + (num + body)) + (extra + rest);
  }

  lemma PlaceholderAtIntended(i: CoinbaseInputs)
    ensures MatchAt(CoinbaseWith(i, PLACEHOLDER), PLACEHOLDER, IntendedOffset(i))
  {
    CoinbaseShape(i, PLACEHOLDER);
    CutAround(CoinbaseWith(i, PLACEHOLDER), IntendedOffset(i),
              Lead(i, 8), ScriptNum(i.height), Body(i, 8), PLACEHOLDER, Rest(CoinbaseOutputs(i)));
  }

  /** The placeholder is always found: the only error left is an empty payout script. */
  lemma PartsExist(i: CoinbaseInputs)
    ensures CoinbaseParts(i).Ok? <==> i.payoutScriptPubkey != []
  {
    PlaceholderAtIntended(i);
    SplitFinds(CoinbaseWith(i, PLACEHOLDER), IntendedOffset(i));
  }

  lemma SplitFinds(hay: bytes, k: nat)
    requires MatchAt(hay, PLACEHOLDER, k)
    ensures SplitAtPlaceholder(hay).Ok?
  {
  }

  /** `build_coinbase_parts`: build, parse back, print without witness, cut at the placeholder. */
  method BuildCoinbaseParts(i: CoinbaseInputs) returns (r: Result<(bytes, bytes), PoolError>)
    requires InputsMachineSized(InputsWith(i, PLACEHOLDER))
    ensures r == CoinbaseParts(i)
  {
    var flagsWithExtranonce := FlagBytes(i);
    flagsWithExtranonce := flagsWithExtranonce + PLACEHOLDER;
    var inputs := i.(auxFlags := Some(flagsWithExtranonce));
    assert inputs == InputsWith(i, PLACEHOLDER);
    var built := BuildCoinbaseTransaction(inputs);
    if built.Err? {
      return Err(built.error);
    }
    CoinbaseParsesBack(inputs);
    var parsed := ParseAll(TX_CODEC, built.value);
    if parsed.None? {
      return Err(Internal("coinbase deserialize"));
    }
    var coinbaseNoWitness := SerializeNoWitness(parsed.value);
    r := SplitAtPlaceholder(coinbaseNoWitness);
  }

  // No match before the intended offset, under an exact condition

  /** The one 64-bit height whose script number contains the placeholder. */
  const SPLITTING_HEIGHT: u64 := 0xefbe_adde_0cb0_cefa

  lemma WindowMismatch(hay: bytes, i: nat, j: nat)
    requires j < 8 && i + j < |hay| && hay[i + j] != PLACEHOLDER[j]
    ensures !MatchAt(hay, PLACEHOLDER, i)
  {
    assert i + 8 <= |hay| ==> hay[i..i + 8][j] == hay[i + j];
  }

  /** No window that starts in these bytes matches, whatever follows them. */
  ghost predicate Inert(lead: bytes) {
    forall tail: bytes, k: nat :: k < |lead| ==> !MatchAt(lead + tail, PLACEHOLDER, k)
  }

  /** The fixed head of the transaction and the height's length are inert. */
  lemma LeadInert(n: nat, numLen: byte)
    requires n < 0x100_0000_0000_0000 && numLen <= 9
    ensures Inert(Head(n) + [numLen])
  {
    var lead := Head(n) + [numLen];
    forall tail: bytes, k: nat | k < |lead| ensures !MatchAt(lead + tail, PLACEHOLDER, k) {
      NoMatchInHead(n, numLen, lead, lead + tail, k);
    }
  }

  lemma NoMatchInHead(n: nat, numLen: byte, lead: bytes, hay: bytes, k: nat)
    requires n < 0x100_0000_0000_0000 && numLen <= 9 && lead == Head(n) + [numLen]
    requires k < |lead| <= |hay| && hay[..|lead|] == lead
    ensures !MatchAt(hay, PLACEHOLDER, k)
  {
    HeadSize(n);
    if k < 41 {
      FixedHeadBytes(n, k);
      assert hay[k] == lead[k] == Head(n)[k];
      WindowMismatch(hay, k, 0);
    } else if k + 8 >= |lead| {
      assert hay[|lead| - 1] == lead[|lead| - 1] == numLen;
      WindowMismatch(hay, k, |lead| - 1 - k);
    } else {
      LongCompactSize(n);
      assert lead[k] == Head(n)[41..][k - 41] && lead[49] == Head(n)[41..][8];
      WindowMismatch(hay, k, if k == 41 then 0 else 7);
    }
  }

  lemma HeadSize(n: nat)
    ensures |Head(n)| == 41 + |PrintCompactSize(n)|
    ensures Head(n)[41..] == PrintCompactSize(n)
  {
  }

  lemma FourMaxBytes()
    ensures LeBytes(0xffff_ffff, 4) == [0xff, 0xff, 0xff, 0xff]
    ensures LeBytes(1, 4) == [1, 0, 0, 0]
  {
    assert LeBytes(0xffff_ffff, 4) == [0xff] + LeBytes(0xff_ffff, 3);
    assert LeBytes(0xff_ffff, 3) == [0xff] + LeBytes(0xffff, 2);
    assert LeBytes(0xffff, 2) == [0xff] + LeBytes(0xff, 1);
    assert LeBytes(0xff, 1) == [0xff] + LeBytes(0, 0);
    assert LeBytes(1, 4) == [1] + LeBytes(0, 3);
    assert LeBytes(0, 3) == [0] + LeBytes(0, 2);
    assert LeBytes(0, 2) == [0] + LeBytes(0, 1);
  }

  lemma FixedHeadBytes(n: nat, k: nat)
    requires k < 41
    ensures Head(n)[k] in {0, 1, 0xff}
    ensures Head(n)[4] == 1
  {
    FourMaxBytes();
    var fixed := LeBytes(1, 4) + [1] + Zeros(32) + LeBytes(0xffff_ffff, 4);
    assert Head(n) == fixed + PrintCompactSize(n);
    assert Head(n)[k] == fixed[k];
  }

  /** The nine-byte CompactSize of a length below 2^56 starts with 0xff and ends with zero. */
  lemma LongCompactSize(n: nat)
    requires n < 0x100_0000_0000_0000 && |PrintCompactSize(n)| >= 8
    ensures |PrintCompactSize(n)| == 9 && PrintCompactSize(n)[0] == 0xff && PrintCompactSize(n)[8] == 0
  {
    LeTopByteZero(n);
  }

  lemma LeTopByteZero(n: nat)
    requires n < 0x100_0000_0000_0000
    ensures LeBytes(n, 8)[7] == 0
  {
    LeBytesAt(n, 8, 7);
    Pow256Values();
  }

  lemma {:induction false} LeBytesAt(v: nat, n: nat, k: nat)
    requires k < n
    ensures v < Pow256(k) ==> LeBytes(v, n)[k] == 0
  {
    if k > 0 {
      LeBytesAt(v / 256, n - 1, k - 1);
    }
  }

  /** Which heights print a script number with the placeholder at its start. */
  lemma HeightHoldsPlaceholder(h: u64)
    ensures MatchAt(ScriptNum(h), PLACEHOLDER, 0) <==> h == SPLITTING_HEIGHT
  {
    SplittingNumber();
    if MatchAt(ScriptNum(h), PLACEHOLDER, 0) {
      ScriptNumFits(h);
      ScriptNumRoundTrip(h);
      NumberWithPlaceholder(ScriptNum(h));
    }
  }

  lemma SplittingNumber()
    ensures ScriptNum(SPLITTING_HEIGHT) == PLACEHOLDER + [0]
  {
    PlaceholderValue();
    MagnitudeOf(PLACEHOLDER);
  }

  /** A nine-byte non-negative script number below 2^64 that starts with the placeholder. */
  lemma NumberWithPlaceholder(num: bytes)
    requires MatchAt(num, PLACEHOLDER, 0) && |num| <= 9 && num[|num| - 1] < 128
    requires Le(num) < 0x1_0000_0000_0000_0000
    ensures Le(num) == SPLITTING_HEIGHT
  {
    assert num[7] == num[0..8][7] == 0xef;
    assert num == PLACEHOLDER + [num[8]];
    LeSnoc(PLACEHOLDER, num[8]);
    PlaceholderValue();
    Pow256Values();
  }

  lemma PlaceholderValue()
    ensures Le(PLACEHOLDER) == SPLITTING_HEIGHT
  {
    assert Le(PLACEHOLDER[7..]) == 0xef;
    assert PLACEHOLDER[6..][1..] == PLACEHOLDER[7..] && Le(PLACEHOLDER[6..]) == 0xefbe;
    assert PLACEHOLDER[5..][1..] == PLACEHOLDER[6..] && Le(PLACEHOLDER[5..]) == 0xefbead;
    assert PLACEHOLDER[4..][1..] == PLACEHOLDER[5..] && Le(PLACEHOLDER[4..]) == 0xefbeadde;
    assert PLACEHOLDER[3..][1..] == PLACEHOLDER[4..] && Le(PLACEHOLDER[3..]) == 0xefbe_adde_0c;
    assert PLACEHOLDER[2..][1..] == PLACEHOLDER[3..] && Le(PLACEHOLDER[2..]) == 0xefbe_adde_0cb0;
    assert PLACEHOLDER[1..][1..] == PLACEHOLDER[2..] && Le(PLACEHOLDER[1..]) == 0xefbe_adde_0cb0_ce;
  }

  lemma {:induction false} MagnitudeOf(s: bytes)
    requires s == [] || s[|s| - 1] != 0
    ensures Magnitude(Le(s)) == s
  {
    if s != [] {
      MagnitudeOf(s[1..]);
      assert Le(s) % 256 == s[0] && Le(s) / 256 == Le(s[1..]);
      LeNonZero(s);
    }
  }

  lemma {:induction false} LeNonZero(s: bytes)
    requires s != [] && s[|s| - 1] != 0
    ensures Le(s) > 0
  {
    if |s| > 1 {
      LeNonZero(s[1..]);
    }
  }

  /**
   A window that starts in the height matches only inside it: a straddling one would need the
   height's last byte, whose high bit is clear, to be the placeholder's 0x0c, and then the push
   opcode to be 0xde, which no push starts with.
   */
  lemma NoMatchInHeight(h: u64, body: bytes, tail: bytes, k: nat)
    requires k < |ScriptNum(h)| && body != [] && body[0] <= 0x4e && |tail| >= 8
    ensures MatchAt(ScriptNum(h) + (body + tail), PLACEHOLDER, k) <==> k == 0 && h == SPLITTING_HEIGHT
  {
    ScriptNumRoundTrip(h);
    ScriptNumFits(h);
    HeightHoldsPlaceholder(h);
    MatchInNumber(ScriptNum(h), body, tail, k);
  }

  lemma MatchInNumber(num: bytes, body: bytes, tail: bytes, k: nat)
    requires k < |num| <= 9 && num[|num| - 1] < 128 && body != [] && body[0] <= 0x4e && |tail| >= 8
    ensures MatchAt(num + (body + tail), PLACEHOLDER, k) <==> k == 0 && MatchAt(num, PLACEHOLDER, 0)
  {
    var hay := num + (body + tail);
    var last := |num| - 1;
    if k + 8 < |num| {
      assert hay[k..k + 8] == num[k..k + 8];
    } else if last - k == 3 {
      assert hay[k + 4] == body[0];
      WindowMismatch(hay, k, 4);
    } else {
      assert hay[k + (last - k)] == num[last];
      WindowMismatch(hay, k, last - k);
    }
    if k + 8 == |num| && k == 0 {
      WindowMismatch(num, 0, 7);
    }
  }

  /** A window that starts in the flags cannot run into the placeholder, whose bytes are all different. */
  lemma MatchInBody(body: bytes, tail: bytes, k: nat)
    requires k < |body|
    ensures MatchAt(body + (PLACEHOLDER + tail), PLACEHOLDER, k) <==> MatchAt(body, PLACEHOLDER, k)
  {
    var hay := body + (PLACEHOLDER + tail);
    if k + 8 <= |body| {
      assert hay[k..k + 8] == body[k..k + 8];
    } else {
      assert hay[k + (|body| - k)] == PLACEHOLDER[0];
      WindowMismatch(hay, k, |body| - k);
    }
  }

  /** What a caller can check beforehand: the height is not the one exception, and the flags push is clean. */
  predicate SplitsCleanly(i: CoinbaseInputs) {
    i.height != SPLITTING_HEIGHT && !Contains(Body(i, 8), PLACEHOLDER)
  }

  lemma MatchShift(a: bytes, b: bytes, k: nat)
    ensures MatchAt(a + b, PLACEHOLDER, |a| + k) <==> MatchAt(b, PLACEHOLDER, k)
  {
    if k + 8 <= |b| {
      assert (a + b)[|a| + k..|a| + k + 8] == b[k..k + 8];
    }
  }

  lemma MatchFromHeight(lead: bytes, h: u64, body: bytes, tail: bytes, j: nat)
    requires body != [] && body[0] <= 0x4e && |tail| >= 8 && j < |ScriptNum(h)|
    ensures MatchAt(lead + (ScriptNum(h) + (body + tail)), PLACEHOLDER, |lead| + j) <==> j == 0 && h == SPLITTING_HEIGHT
  {
    MatchShift(lead, ScriptNum(h) + (body + tail), j);
    NoMatchInHeight(h, body, tail, j);
  }

  lemma MatchFromFlags(lead: bytes, num: bytes, body: bytes, rest: bytes, j: nat)
    requires j < |body|
    ensures MatchAt(lead + (num + (body + (PLACEHOLDER + rest))), PLACEHOLDER, |lead| + |num| + j)
       <==> MatchAt(body, PLACEHOLDER, j)
  {
    MatchShift(lead, num + (body + (PLACEHOLDER + rest)), |num| + j);
    MatchShift(num, body + (PLACEHOLDER + rest), j);
    MatchInBody(body, rest, j);
  }

  /** Every match before the end of the flags comes from the height or from the flags push. */
  lemma EarlyMatch(lead: bytes, h: u64, body: bytes, rest: bytes, k: nat)
    requires Inert(lead) && body != [] && body[0] <= 0x4e
    requires k < |lead| + |ScriptNum(h)| + |body|
    ensures MatchAt(lead + (ScriptNum(h) + (body + (PLACEHOLDER + rest))), PLACEHOLDER, k) <==>
              || (k == |lead| && h == SPLITTING_HEIGHT)
              || (k >= |lead| + |ScriptNum(h)| && MatchAt(body, PLACEHOLDER, k - |lead| - |ScriptNum(h)|))
  {
    var num := ScriptNum(h);
    if k < |lead| {
      assert !MatchAt(lead + (num + (body + (PLACEHOLDER + rest))), PLACEHOLDER, k);
    } else if k < |lead| + |num| {
      MatchFromHeight(lead, h, body, PLACEHOLDER + rest, k - |lead|);
    } else {
      SplittingIsLong(h);
      MatchFromFlags(lead, num, body, rest, k - |lead| - |num|);
    }
  }

  lemma SplittingIsLong(h: u64)
    ensures h == SPLITTING_HEIGHT ==> ScriptNum(h) != []
  {
    HeightHoldsPlaceholder(h);
  }

  lemma FlagsMatchEarly(lead: bytes, h: u64, body: bytes, rest: bytes)
    requires Inert(lead) && body != [] && body[0] <= 0x4e && Contains(body, PLACEHOLDER)
    ensures exists k :: 0 <= k < |lead| + |ScriptNum(h)| + |body|
              && MatchAt(lead + (ScriptNum(h) + (body + (PLACEHOLDER + rest))), PLACEHOLDER, k)
  {
    var j :| 0 <= j <= |body| && MatchAt(body, PLACEHOLDER, j);
    var k := |lead| + |ScriptNum(h)| + j;
    EarlyMatch(lead, h, body, rest, k);
    assert MatchAt(lead + (ScriptNum(h) + (body + (PLACEHOLDER + rest))), PLACEHOLDER, k);
  }

  lemma NothingMatchesEarly(lead: bytes, h: u64, body: bytes, rest: bytes, k: nat)
    requires Inert(lead) && body != [] && body[0] <= 0x4e && k < |lead| + |ScriptNum(h)| + |body|
    requires h != SPLITTING_HEIGHT && !Contains(body, PLACEHOLDER)
    ensures !MatchAt(lead + (ScriptNum(h) + (body + (PLACEHOLDER + rest))), PLACEHOLDER, k)
  {
    EarlyMatch(lead, h, body, rest, k);
    var start := |lead| + |ScriptNum(h)|;
    assert k >= start ==> 0 <= k - start <= |body|;
  }

  lemma FirstMatchCut(hay: bytes, o: nat, lead: bytes, h: u64, body: bytes, rest: bytes)
    requires Inert(lead) && body != [] && body[0] <= 0x4e
    requires hay == lead + (ScriptNum(h) + (body + (PLACEHOLDER + rest)))
    requires o == |lead| + |ScriptNum(h)| + |body|
    ensures FirstMatch(hay, PLACEHOLDER) == Some(o) <==> h != SPLITTING_HEIGHT && !Contains(body, PLACEHOLDER)
  {
    CutAround(hay, o, lead, ScriptNum(h), body, PLACEHOLDER, rest);
    if h == SPLITTING_HEIGHT {
      HeightHoldsPlaceholder(h);
      EarlyMatch(lead, h, body, rest, |lead|);
    } else if Contains(body, PLACEHOLDER) {
      FlagsMatchEarly(lead, h, body, rest);
    } else {
      forall k | 0 <= k < o ensures !MatchAt(hay, PLACEHOLDER, k) {
        NothingMatchesEarly(lead, h, body, rest, k);
      }
      FirstMatchUnique(hay, o);
    }
  }

  lemma FirstMatchUnique(hay: bytes, o: nat)
    requires MatchAt(hay, PLACEHOLDER, o) && forall k :: 0 <= k < o ==> !MatchAt(hay, PLACEHOLDER, k)
    ensures FirstMatch(hay, PLACEHOLDER) == Some(o)
  {
  }

  lemma ShapeIsCut(i: CoinbaseInputs)
    requires |FlagBytes(i)| + 8 < 0x1_0000_0000
    ensures Inert(Lead(i, 8)) && Body(i, 8) != [] && Body(i, 8)[0] <= 0x4e
  {
    ScriptNumFits(i.height);
    LeadInert(SigLength(i, 8), |ScriptNum(i.height)|);
  }

  /** The first match is the intended offset exactly when the inputs split cleanly. */
  lemma FirstMatchIntended(i: CoinbaseInputs)
    requires |FlagBytes(i)| + 8 < 0x1_0000_0000
    ensures FirstMatch(CoinbaseWith(i, PLACEHOLDER), PLACEHOLDER) == Some(IntendedOffset(i)) <==> SplitsCleanly(i)
  {
    ShapeIsCut(i);
    CoinbaseShape(i, PLACEHOLDER);
    FirstMatchCut(CoinbaseWith(i, PLACEHOLDER), IntendedOffset(i),
                  Lead(i, 8), i.height, Body(i, 8), Rest(CoinbaseOutputs(i)));
  }

  /** With at most 241 bytes of flags only the flags themselves matter: no length byte can start a match. */
  lemma ShortFlagsSplit(i: CoinbaseInputs)
    requires |FlagBytes(i)| <= 241
    ensures SplitsCleanly(i) <==> i.height != SPLITTING_HEIGHT && !Contains(FlagBytes(i), PLACEHOLDER)
  {
    var flags, body := FlagBytes(i), Body(i, 8);
    var p := PushPrefix(|flags| + 8);
    if Contains(flags, PLACEHOLDER) {
      var k :| 0 <= k <= |flags| && MatchAt(flags, PLACEHOLDER, k);
      MatchShift(p, flags, k);
    }
    if Contains(body, PLACEHOLDER) {
      var k :| 0 <= k <= |body| && MatchAt(body, PLACEHOLDER, k);
      if k < |p| {
        assert body[k] == p[k] && p[k] < 0xfa;
        WindowMismatch(body, k, 0);
      } else {
        MatchShift(p, flags, k - |p|);
      }
    }
  }

  // What the split is for

  /**
   The two parts around any eight bytes are the coinbase with those bytes pushed after the
   flags, for every choice of the bytes, exactly when the inputs split cleanly.
   */
  lemma PartsReassemble(i: CoinbaseInputs)
    requires i.payoutScriptPubkey != [] && |FlagBytes(i)| + 8 < 0x1_0000_0000
    ensures CoinbaseParts(i).Ok?
    ensures (forall e: bytes | |e| == 8 ::
              CoinbaseParts(i).value.0 + e + CoinbaseParts(i).value.1 == CoinbaseWith(i, e))
            <==> SplitsCleanly(i)
  {
    var hay := CoinbaseWith(i, PLACEHOLDER);
    PlaceholderAtIntended(i);
    FirstMatchIntended(i);
    forall e: bytes | |e| == 8 ensures RefillsTo(hay, IntendedOffset(i), e, CoinbaseWith(i, e)) {
      AroundIntended(i, e);
    }
    var k := FirstMatch(hay, PLACEHOLDER).value;
    if k != IntendedOffset(i) {
      EarlierCutDiffers(hay, k, IntendedOffset(i));
      assert CoinbaseParts(i).value.0 + Zeros(8) + CoinbaseParts(i).value.1 != CoinbaseWith(i, Zeros(8));
    }
  }

  lemma EarlierCutDiffers(hay: bytes, k: nat, o: nat)
    requires k < o && o + 8 <= |hay| && MatchAt(hay, PLACEHOLDER, k)
    ensures hay[..k] + Zeros(8) + hay[k + 8..] != hay[..o] + Zeros(8) + hay[o + 8..]
  {
    assert (hay[..k] + Zeros(8) + hay[k + 8..])[k] == 0;
    assert hay[k] == hay[k..k + 8][0] == 0xfa;
    assert (hay[..o] + Zeros(8) + hay[o + 8..])[k] == hay[k];
  }

  /** Putting e over the eight bytes at offset o turns s into t. */
  predicate RefillsTo(s: bytes, o: nat, e: bytes, t: bytes) {
    o + 8 <= |s| && s[..o] + e + s[o + 8..] == t
  }

  lemma AroundIntended(i: CoinbaseInputs, e: bytes)
    requires |e| == 8
    ensures RefillsTo(CoinbaseWith(i, PLACEHOLDER), IntendedOffset(i), e, CoinbaseWith(i, e))
  {
    CoinbaseShape(i, PLACEHOLDER);
    CoinbaseShape(i, e);
    Refill(CoinbaseWith(i, PLACEHOLDER), CoinbaseWith(i, e), IntendedOffset(i),
           Lead(i, 8), ScriptNum(i.height), Body(i, 8), e, Rest(CoinbaseOutputs(i)));
  }

  lemma Refill(s: bytes, t: bytes, o: nat, lead: bytes, num: bytes, body: bytes, e: bytes, rest: bytes)
    requires s == lead + (num + (body + (PLACEHOLDER + rest))) && t == lead + (num + (body + (e + rest)))
    requires o == |lead| + |num| + |body|
    ensures RefillsTo(s, o, e, t)
  {
    CutAround(s, o, lead, num, body, PLACEHOLDER, rest);
    assert lead + (num + body) + e + rest == t;
  }

  /**
   Filled with any extranonce, the parts parse to a transaction with unchanged outputs whose
   script is the height and the flags followed by the extranonce.
   */
  lemma FilledPartsParse(i: CoinbaseInputs, e: bytes)
    requires i.payoutScriptPubkey != [] && |FlagBytes(i)| + 8 < 0x1_0000_0000
    requires InputsMachineSized(i) && SplitsCleanly(i) && |e| == 8
    ensures CoinbaseParts(i).Ok?
    ensures FilledProperly(i, e, CoinbaseParts(i).value.0 + e + CoinbaseParts(i).value.1)
  {
    PartsReassemble(i);
    CoinbaseParses(i, e);
  }

  predicate FilledProperly(i: CoinbaseInputs, e: bytes, coinbase: bytes) {
    var tx := ParseAll(TX_CODEC, coinbase);
    && tx.Some? && IsCoinbase(tx.value)
    && PaysOut(tx.value.outputs, i.coinbaseValue, i.payoutScriptPubkey, i.witnessCommitment)
    && ParseScriptSig(tx.value.inputs[0].scriptSig) == Some((i.height, Some(FlagBytes(i) + e)))
  }

  lemma CoinbaseParses(i: CoinbaseInputs, e: bytes)
    requires |FlagBytes(i)| + |e| < 0x1_0000_0000 && InputsMachineSized(i) && e != []
    ensures FilledProperly(i, e, CoinbaseWith(i, e))
  {
    var inputs := InputsWith(i, e);
    var tx := CoinbaseTx(inputs);
    CoinbaseFits(inputs);
    LegacyParsesAll(tx);
    ScriptSigRoundTrip(i.height, inputs.auxFlags);
    OutputsPay(inputs);
  }

  lemma LegacyParsesAll(tx: Transaction)
    requires BIP144.Fits(tx) && tx.inputs != []
    ensures ParseAll(TX_CODEC, PrintLegacy(tx)) == Some(tx.(witnesses := NoWitnesses(|tx.inputs|)))
  {
    Bip144Sound();
    BIP144.LegacyParsesWhole(tx);
  }

  /** The parts of every template look like a legacy transaction: the cut comes after the input count. */
  lemma PartsLookLegacy(i: CoinbaseInputs)
    requires |FlagBytes(i)| + 8 < 0x1_0000_0000 && CoinbaseParts(i).Ok?
    ensures LooksLegacy(CoinbaseParts(i).value.0)
  {
    ShapeIsCut(i);
    CoinbaseShape(i, PLACEHOLDER);
    FixedHeadBytes(SigLength(i, 8), 4);
    HeadSize(SigLength(i, 8));
    CutLooksLegacy(CoinbaseWith(i, PLACEHOLDER), Lead(i, 8),
                   ScriptNum(i.height) + (Body(i, 8) + (PLACEHOLDER + Rest(CoinbaseOutputs(i)))));
  }

  lemma CutLooksLegacy(hay: bytes, lead: bytes, tail: bytes)
    requires hay == lead + tail && Inert(lead) && |lead| > 4 && lead[4] != 0
    requires FirstMatch(hay, PLACEHOLDER).Some?
    ensures LooksLegacy(hay[..FirstMatch(hay, PLACEHOLDER).value])
  {
    var k := FirstMatch(hay, PLACEHOLDER).value;
    assert !(k < |lead|);
  }
}
