/** Turning a solved header into a block candidate for the daemon. */
module CandidateSubmit {
  import opened Bytes
  import opened Wrappers
  import opened Codecs
  import opened Transactions
  import opened Coinbase
  import opened Jobs
  import opened ShareValidator
  import opened RawBlock

  datatype LocalError =
    | MissingBlockAssembly
    | CoinbaseDeserialize
    | NoFirstInput  // indexing input 0 of a transaction without inputs panics
    | RawBlockFailed(error: PoolError)

  /** The coinbase transaction with the witness nonce on its first input. */
  function WithNonce(tx: Transaction): Transaction
    requires |tx.witnesses| > 0
  {
    tx.(witnesses := tx.witnesses[0 := WitnessNonce()])
  }

  function Restored(s: bytes): Result<bytes, LocalError> {
    match ParseAll(TX_CODEC, s)
    case None => Err(CoinbaseDeserialize)
    case Some(tx) => if tx.witnesses == [] then Err(NoFirstInput) else Ok(TX_CODEC.encode(WithNonce(tx)))
  }

  /** `restore_coinbase_witness`. */
  method RestoreCoinbaseWitness(coinbaseNoWitness: bytes) returns (r: Result<bytes, LocalError>)
    ensures r == Restored(coinbaseNoWitness)
  {
    var parsed := ParseAll(TX_CODEC, coinbaseNoWitness);
    if parsed.None? {
      return Err(CoinbaseDeserialize);
    }
    var tx := parsed.value;
    if tx.witnesses == [] {
      return Err(NoFirstInput);
    }
    tx := tx.(witnesses := tx.witnesses[0 := [Zeros(32)]]);
    return Ok(TX_CODEC.encode(tx));
  }

  lemma NonceFits(tx: Transaction)
    requires BIP144.Fits(tx) && tx.inputs != []
    ensures BIP144.Fits(WithNonce(tx)) && UsesSegwit(WithNonce(tx))
    ensures PrintLegacy(WithNonce(tx)) == PrintLegacy(tx)
  {
    assert WithNonce(tx).witnesses[0] != [];
    assert AllFit(VAR_BYTES, WitnessNonce());
    assert BIP144.stack.fits(WitnessNonce());
  }

  /**
   Restoring the witness of a coinbase in hashed form keeps its txid: what is restored parses
   to a transaction whose hashed form is the input byte for byte, and whose first witness is
   exactly 32 zero bytes.
   */
  lemma RestorationKeepsTxid(s: bytes)
    requires LooksLegacy(s) && ValidTx(s)
    ensures Restored(s).Ok?
    ensures ValidTx(Restored(s).value)
    ensures var tx := ParseAll(TX_CODEC, Restored(s).value).value;
            && tx == WithNonce(ParseAll(TX_CODEC, s).value)
            && PrintLegacy(tx) == s
            && tx.witnesses[0] == WitnessNonce()
  {
    LegacyBytesAreHashed(s);
    var tx := ParseAll(TX_CODEC, s).value;
    NonceFits(tx);
    TxLawful();
    ParseAllOfPrint(TX_CODEC, WithNonce(tx));
  }

  /** The bytes restoration adds to a coinbase with one input: marker and flag, and one witness of 32 zero bytes. */
  function Spliced(s: bytes): bytes
    requires |s| >= 8
  {
    s[..4] + [0, 1] + s[4..|s| - 4] + ([1, 32] + Zeros(32)) + s[|s| - 4..]
  }

  lemma RestorationSplices(s: bytes)
    requires LooksLegacy(s) && ValidTx(s) && |ParseAll(TX_CODEC, s).value.inputs| == 1
    ensures |s| >= 8 && Restored(s) == Ok(Spliced(s))
  {
    LegacyBytesAreHashed(s);
    var tx := ParseAll(TX_CODEC, s).value;
    NonceFits(tx);
    NonceBytes();
    LayoutSplices(BIP144, tx, s);
  }

  lemma LayoutSplices(layout: Layout, tx: Transaction, s: bytes)
    requires s == layout.PrintLegacy(tx) && |tx.witnesses| == 1
    requires |layout.version.encode(tx.version)| == 4 && |layout.version.encode(tx.lockTime)| == 4
    requires PrintMany(layout.stack, [WitnessNonce()]) == [1, 32] + Zeros(32)
    ensures |s| >= 8 && layout.PrintSegwit(WithNonce(tx)) == Spliced(s)
  {
    assert WithNonce(tx).witnesses == [WitnessNonce()];
    SpliceLayout(layout.version.encode(tx.version), layout.inputs.encode(tx.inputs), layout.outputs.encode(tx.outputs),
                 layout.version.encode(tx.lockTime), PrintMany(layout.stack, [WitnessNonce()]), s);
  }

  lemma NonceBytes()
    ensures PrintMany(BIP144.stack, [WitnessNonce()]) == [1, 32] + Zeros(32)
  {
    var c := BIP144.stack;
    assert PrintMany(c, [WitnessNonce()]) == c.encode(WitnessNonce()) + [];
    assert PrintMany(VAR_BYTES, WitnessNonce()) == VAR_BYTES.encode(Zeros(32)) + [];
    assert VAR_BYTES.encode(Zeros(32)) == [32] + Zeros(32);
    assert c.encode(WitnessNonce()) == [1] + ([32] + Zeros(32) + []);
  }

  lemma SpliceLayout(v: bytes, ins: bytes, outs: bytes, lock: bytes, nonce: bytes, s: bytes)
    requires |v| == |lock| == 4 && s == v + ins + outs + lock && nonce == [1, 32] + Zeros(32)
    ensures |s| >= 8 && v + [0, 1] + ins + outs + nonce + lock == Spliced(s)
  {
    assert s[..4] == v && s[|s| - 4..] == lock && s[4..|s| - 4] == ins + outs;
  }

  // The candidate

  datatype BlockCandidate = BlockCandidate(height: u64, rawBlock: bytes)

  function CandidateCoinbase(a: BlockAssembly, coinbase: bytes): Result<bytes, LocalError> {
    if a.witnessCommitment.Some? then Restored(coinbase) else Ok(coinbase)
  }

  function RawOf(header: bytes, a: BlockAssembly, coinbase: Result<bytes, LocalError>)
    : Result<BlockCandidate, LocalError>
  {
    match coinbase
    case Err(e) => Err(e)
    case Ok(tx) =>
      if Buildable(header, tx, a.templateTransactions) then
        Ok(BlockCandidate(a.height, RawBytes(header, tx, a.templateTransactions)))
      else Err(RawBlockFailed(Internal("raw block")))
  }

  /** The candidate `submit_block_candidate` sends, or the error it stops with. */
  function Candidate(job: Job, header: bytes, extranonce1: bytes, extraNonce2: bytes)
    : Result<BlockCandidate, LocalError>
  {
    match job.blockAssembly
    case None => Err(MissingBlockAssembly)
    case Some(a) => RawOf(header, a, CandidateCoinbase(a, MinerCoinbase(job, extranonce1, extraNonce2)))
  }

  /**
   When it stops before building the block: without assembly data, or when the witness is to be
   restored on bytes that do not parse or have no input.
   */
  lemma CandidateStops(job: Job, header: bytes, extranonce1: bytes, extraNonce2: bytes)
    ensures var r := Candidate(job, header, extranonce1, extraNonce2);
            var parsed := ParseAll(TX_CODEC, MinerCoinbase(job, extranonce1, extraNonce2));
            var restores := job.blockAssembly.Some? && job.blockAssembly.value.witnessCommitment.Some?;
            && (r == Err(MissingBlockAssembly) <==> job.blockAssembly.None?)
            && (r == Err(CoinbaseDeserialize) <==> restores && parsed.None?)
            && (r == Err(NoFirstInput) <==> restores && parsed.Some? && parsed.value.witnesses == [])
  {
  }

  /** `submit_block_candidate` up to the call of the submitter. */
  method PrepareCandidate(job: Job, header: bytes, extranonce1: bytes, extraNonce2: bytes)
    returns (r: Result<BlockCandidate, LocalError>)
    ensures r.Ok? <==> Candidate(job, header, extranonce1, extraNonce2).Ok?
    ensures r.Ok? ==> r == Candidate(job, header, extranonce1, extraNonce2)
    ensures r.Err? && !r.error.RawBlockFailed? ==> r == Candidate(job, header, extranonce1, extraNonce2)
  {
    if job.blockAssembly.None? {
      return Err(MissingBlockAssembly);
    }
    var assembly := job.blockAssembly.value;
    var coinbase := MinerCoinbase(job, extranonce1, extraNonce2);
    if assembly.witnessCommitment.Some? {
      var restored := RestoreCoinbaseWitness(coinbase);
      if restored.Err? {
        return Err(restored.error);
      }
      coinbase := restored.value;
    }
    var raw := BuildRawBlock(header, coinbase, assembly.templateTransactions);
    if raw.Err? {
      return Err(RawBlockFailed(raw.error));
    }
    return Ok(BlockCandidate(assembly.height, raw.value));
  }

  /** The transaction the coinbase bytes parse to, with the witness nonce when the template asks for a commitment. */
  predicate MinersTransaction(a: BlockAssembly, coinbase: bytes, tx: Transaction) {
    var parsed := ParseAll(TX_CODEC, coinbase);
    && parsed.Some? && parsed.value.witnesses != []
    && tx == if a.witnessCommitment.Some? then WithNonce(parsed.value) else parsed.value
  }

  /**
   The block is for this job and coinbase: it parses with this header, its first transaction is
   the miner's, the coinbase bytes are that transaction's hashed form, and the rest are the template's.
   */
  ghost predicate CarriesCoinbase(candidate: BlockCandidate, header: bytes, job: Job, coinbase: bytes) {
    && job.blockAssembly.Some?
    && candidate.height == job.Height()
    && var block := ParseAll(BLOCK_CODEC, candidate.rawBlock);
    && block.Some?
    && block.value.header == header
    && |block.value.transactions| == 1 + |job.blockAssembly.value.templateTransactions|
    && MinersTransaction(job.blockAssembly.value, coinbase, block.value.transactions[0])
    && PrintLegacy(block.value.transactions[0]) == coinbase
    && forall k :: 0 <= k < |job.blockAssembly.value.templateTransactions| ==>
         TX_CODEC.encode(block.value.transactions[k + 1]) == job.blockAssembly.value.templateTransactions[k]
  }

  /** Every candidate's first transaction is the coinbase the miner hashed, with or without a restored witness. */
  lemma CandidateCarriesCoinbase(job: Job, header: bytes, extranonce1: bytes, extraNonce2: bytes)
    requires LooksLegacy(job.coinbasePart1)
    requires Candidate(job, header, extranonce1, extraNonce2).Ok?
    ensures CarriesCoinbase(Candidate(job, header, extranonce1, extraNonce2).value, header, job,
                            MinerCoinbase(job, extranonce1, extraNonce2))
  {
    var c := MinerCoinbase(job, extranonce1, extraNonce2);
    assert c[4] == job.coinbasePart1[4];
    RawCarries(job, header, job.blockAssembly.value, c, CandidateCoinbase(job.blockAssembly.value, c));
  }

  lemma RawCarries(job: Job, header: bytes, a: BlockAssembly, c: bytes, tx: Result<bytes, LocalError>)
    requires LooksLegacy(c) && job.blockAssembly == Some(a)
    requires tx == CandidateCoinbase(a, c) && RawOf(header, a, tx).Ok?
    ensures CarriesCoinbase(RawOf(header, a, tx).value, header, job, c)
  {
    CoinbaseKept(a, c);
    RawBlockInverts(header, tx.value, a.templateTransactions);
  }

  lemma CoinbaseKept(a: BlockAssembly, c: bytes)
    requires LooksLegacy(c) && CandidateCoinbase(a, c).Ok? && ValidTx(CandidateCoinbase(a, c).value)
    ensures PrintLegacy(ParseAll(TX_CODEC, CandidateCoinbase(a, c).value).value) == c
    ensures MinersTransaction(a, c, ParseAll(TX_CODEC, CandidateCoinbase(a, c).value).value)
  {
    LegacyBytesAreHashed(c);
    if a.witnessCommitment.Some? {
      RestorationKeepsTxid(c);
    }
  }

  // The submitter's answer

  datatype SubmitterAnswer = Yes | No | Failed(message: string)

  datatype SubmissionResult = Submitted | Refused(reason: string) | FailedLocally(message: string)

  const REJECTED_PREFIX: string := "submitblock rejected: "

  /** How `submit_block_candidate` reports the submitter's answer. */
  function Report(answer: SubmitterAnswer): SubmissionResult {
    match answer
    case Yes => Submitted
    case No => Refused("block submitter returned false")
    case Failed(message) =>
      if REJECTED_PREFIX <= message then Refused(message[|REJECTED_PREFIX|..]) else FailedLocally(message)
  }

  /** A daemon's rejection keeps its reason, and nothing but a yes counts as submitted. */
  lemma ReportKeepsReason(answer: SubmitterAnswer, reason: string)
    ensures Report(answer) == Submitted <==> answer == Yes
    ensures answer == Failed("submitblock rejected: " + reason) ==> Report(answer) == Refused(reason)
    ensures Report(answer).FailedLocally? <==> answer.Failed? && !("submitblock rejected: " <= answer.message)
  {
    assert (REJECTED_PREFIX + reason)[|REJECTED_PREFIX|..] == reason;
  }
}
