/** Templates that make jobs: any height but one, any hashes, any transactions that parse, with any ids. */
module PlainTemplates {
  import opened Bytes
  import opened Wrappers
  import opened Hex
  import opened Codecs
  import opened Transactions
  import opened Coinbase
  import opened CoinbaseSplit
  import opened Jobs
  import opened TemplateMapper
  import opened RawBlock
  import opened EndToEnd

  /** A job made from a template that splits cleanly and whose transactions parse and can be counted. */
  predicate Ready(t: BlockTemplate, payout: bytes, job: Job) {
    && CleanJob(t, payout, job)
    && job.blockAssembly.Some? && Countable(job.blockAssembly.value.templateTransactions)
  }

  lemma ReadyIsTemplate(t: BlockTemplate, payout: bytes, job: Job)
    requires Ready(t, payout, job)
    ensures IsTemplateJob(payout, job) && FromTemplates(payout)(job)
  {
  }

  function PlainTx(data: bytes, id: Hash32): TemplateTx {
    TemplateTx(HexEncode(data), Some(HexEncode(Reverse(id))), None)
  }

  function PlainTxs(datas: seq<bytes>, ids: seq<Hash32>): (txs: seq<TemplateTx>)
    requires |ids| == |datas|
    ensures |txs| == |datas|
    ensures forall k :: 0 <= k < |datas| ==> txs[k] == PlainTx(datas[k], ids[k])
  {
    if datas == [] then [] else [PlainTx(datas[0], ids[0])] + PlainTxs(datas[1..], ids[1..])
  }

  lemma DecodeCons(tx: TemplateTx, rest: seq<TemplateTx>, data: bytes, datas: seq<bytes>)
    requires HexDecode(tx.data) == Some(data) && DecodeTransactions(rest) == Ok(datas)
    ensures DecodeTransactions([tx] + rest) == Ok([data] + datas)
  {
    assert ([tx] + rest)[1..] == rest;
  }

  lemma {:induction false} PlainTxsDecode(datas: seq<bytes>, ids: seq<Hash32>)
    requires |ids| == |datas|
    ensures DecodeTransactions(PlainTxs(datas, ids)) == Ok(datas)
    decreases |datas|
  {
    if datas != [] {
      HexRoundTrip(datas[0]);
      PlainTxsDecode(datas[1..], ids[1..]);
      DecodeCons(PlainTx(datas[0], ids[0]), PlainTxs(datas[1..], ids[1..]), datas[0], datas[1..]);
      assert datas == [datas[0]] + datas[1..];
    }
  }

  lemma PlainEntry(data: bytes, id: Hash32)
    ensures BranchEntry(PlainTx(data, id)) == Some(id)
  {
    HexRoundTrip(Reverse(id));
    ReverseInvolutive(id);
  }

  lemma PlainBranch(datas: seq<bytes>, ids: seq<Hash32>)
    requires |ids| == |datas|
    ensures MerkleBranch(PlainTxs(datas, ids)) == ids
  {
    forall k | 0 <= k < |ids| ensures BranchEntry(PlainTxs(datas, ids)[k]) == Some(ids[k]) {
      PlainEntry(datas[k], ids[k]);
    }
    BranchOfEntries(PlainTxs(datas, ids), ids);
  }

  /** A template with these transactions under these ids, without flags and witness commitment. */
  function PlainTemplate(height: u64, prevHash: bytes, bits: bytes, datas: seq<bytes>, ids: seq<Hash32>): BlockTemplate
    requires |ids| == |datas|
  {
    BlockTemplate(4, HexEncode(prevHash), HexEncode(bits), 0, height, PlainTxs(datas, ids), 0, None, None)
  }

  lemma PlainDecodes(height: u64, prevHash: bytes, bits: bytes, datas: seq<bytes>, ids: seq<Hash32>)
    requires |prevHash| == 32 && |bits| == 4 && |ids| == |datas|
    ensures var d := DecodeTemplate(PlainTemplate(height, prevHash, bits, datas, ids));
            && d.Ok? && d.value.flags == None && d.value.commitment == None && d.value.transactions == datas
            && d.value.prevHash == Reverse(prevHash)
  {
    HexRoundTrip(prevHash);
    HexRoundTrip(bits);
    PlainTxsDecode(datas, ids);
  }

  lemma NoFlagsSplit(i: CoinbaseInputs)
    requires i.height != SPLITTING_HEIGHT && i.auxFlags == None && i.witnessCommitment == None
    requires MachineSized(i.payoutScriptPubkey)
    ensures Sized(i) && SplitsCleanly(i)
  {
    ShortFlagsSplit(i);
  }

  /** Which heights, hashes and transactions a plain template can have. */
  predicate Plain(height: u64, prevHash: bytes, bits: bytes, datas: seq<bytes>, payout: bytes) {
    && height != SPLITTING_HEIGHT && |prevHash| == 32 && |bits| == 4
    && Countable(datas) && payout != [] && MachineSized(payout)
  }

  /** What the job of a plain template carries. */
  predicate Carries(job: Job, height: u64, prevHash: bytes, datas: seq<bytes>, ids: seq<Hash32>) {
    && job.jobId == Decimal(height) && job.prevHash == Reverse(prevHash) && job.merkleBranch == ids
    && job.blockAssembly.Some? && job.blockAssembly.value.templateTransactions == datas
  }

  /** Every plain template makes a job that can be mined and submitted. */
  lemma PlainTemplateMakesJob(height: u64, prevHash: bytes, bits: bytes, datas: seq<bytes>, ids: seq<Hash32>,
                              payout: bytes)
    returns (job: Job)
    requires Plain(height, prevHash, bits, datas, payout) && |ids| == |datas|
    ensures Ready(PlainTemplate(height, prevHash, bits, datas, ids), payout, job)
    ensures Carries(job, height, prevHash, datas, ids)
  {
    var t := PlainTemplate(height, prevHash, bits, datas, ids);
    PlainDecodes(height, prevHash, bits, datas, ids);
    JobMadeExactly(t, payout);
    job := MadeJob(TemplateToJob(t, payout));
    PlainFields(t, payout, job, DecodeTemplate(t).value, datas, ids);
    PlainIsClean(t, payout, job, DecodeTemplate(t).value, TemplateInputs(t, DecodeTemplate(t).value, payout));
    assert Carries(job, height, prevHash, datas, ids);
  }

  function MadeJob(r: Result<Job, PoolError>): Job
    requires r.Ok?
  {
    r.value
  }

  lemma PlainFields(t: BlockTemplate, payout: bytes, job: Job, d: Decoded, datas: seq<bytes>, ids: seq<Hash32>)
    requires |ids| == |datas| && t.transactions == PlainTxs(datas, ids)
    requires TemplateToJob(t, payout) == Ok(job) && DecodeTemplate(t) == Ok(d) && d.transactions == datas
    ensures job.jobId == Decimal(t.height) && job.prevHash == d.prevHash && job.merkleBranch == ids
    ensures job.blockAssembly.Some? && job.blockAssembly.value.templateTransactions == datas
  {
    JobFromTemplate(t, payout, job);
    PlainBranch(datas, ids);
  }

  lemma PlainIsClean(t: BlockTemplate, payout: bytes, job: Job, d: Decoded, i: CoinbaseInputs)
    requires TemplateToJob(t, payout) == Ok(job) && DecodeTemplate(t) == Ok(d) && i == TemplateInputs(t, d, payout)
    requires i.height != SPLITTING_HEIGHT && i.auxFlags == None && i.witnessCommitment == None
    requires MachineSized(i.payoutScriptPubkey)
    ensures CleanJob(t, payout, job)
  {
    NoFlagsSplit(i);
    assert CoinbaseOf(t, payout) == i;
  }

  // Transactions for such templates

  /** The coinbase transaction of a height, printed: bytes that parse. */
  lemma SampleTransaction(height: u64, value: u64) returns (data: bytes)
    ensures ValidTx(data) && ParseAll(TX_CODEC, data).value.outputs == [Output(value, [])]
  {
    var i := CoinbaseInputs(height, value, [], None, None);
    var tx := CoinbaseTx(i);
    CoinbaseFits(i);
    LegacyParsesAll(tx);
    data := PrintLegacy(tx);
  }

  lemma BothParse(c: Codec<Transaction>, a: bytes, b: bytes)
    requires ParseAll(c, a).Some? && ParseAll(c, b).Some?
    ensures AllParse(c, [a, b])
  {
  }

  /** There are two different ones. */
  lemma TwoTransactions() returns (datas: seq<bytes>)
    ensures |datas| == 2 && datas[0] != datas[1] && Countable(datas)
  {
    var a := SampleTransaction(1, 1);
    var b := SampleTransaction(1, 2);
    BothParse(TX_CODEC, a, b);
    datas := [a, b];
  }
}
