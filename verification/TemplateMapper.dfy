/** From a daemon block template to a mining job. */
module TemplateMapper {
  import opened Bytes
  import opened Wrappers
  import opened Hex
  import opened Coinbase
  import opened CoinbaseSplit
  import opened Jobs

  datatype TemplateTx = TemplateTx(data: string, txid: Option<string>, hash: Option<string>)

  datatype BlockTemplate = BlockTemplate(
    version: bv32,
    previousblockhash: string,
    bits: string,
    curtime: u64,
    height: u64,
    transactions: seq<TemplateTx>,
    coinbasevalue: u64,
    coinbaseauxFlags: Option<string>,
    defaultWitnessCommitment: Option<string>)

  /** `decode_prev_hash`: the daemon's text is in display order, the header wants the reverse. */
  function DecodePrevHash(hex: string): Result<Hash32, PoolError> {
    match HexDecode(hex)
    case None => Err(Daemon("prev_hash hex"))
    case Some(b) => if |b| != 32 then Err(Daemon("prev_hash length")) else Ok(Reverse(b))
  }

  /** `decode_bits`: four bytes, most significant first. */
  function DecodeBits(hex: string): Result<u32, PoolError> {
    match HexDecode(hex)
    case None => Err(Daemon("bits hex"))
    case Some(b) =>
      if |b| != 4 then Err(Daemon("bits length"))
      else
        BeBound(b);
        Pow256Values();
        Ok(Be(b))
  }

  /** An optional hexadecimal field, blank text counting as absent. */
  function DecodeOptionalHex(field: Option<string>, error: string): Result<Option<bytes>, PoolError> {
    if field.None? || Trim(field.value) == "" then Ok(None)
    else match HexDecode(Trim(field.value))
      case Some(b) => Ok(Some(b))
      case None => Err(Daemon(error))
  }

  /** `decode_template_transactions`: the first transaction that is not hexadecimal fails the template. */
  function DecodeTransactions(txs: seq<TemplateTx>): Result<seq<bytes>, PoolError> {
    if txs == [] then Ok([])
    else match HexDecode(txs[0].data)
      case None => Err(Daemon("transaction data hex"))
      case Some(b) =>
        match DecodeTransactions(txs[1..])
        case Ok(rest) => Ok([b] + rest)
        case Err(e) => Err(e)
  }

  /** The branch entry of one transaction: its txid, or its hash when it has no txid, if that is 32 bytes of hex. */
  function BranchEntry(tx: TemplateTx): Option<Hash32> {
    var text := if tx.txid.Some? then tx.txid else tx.hash;
    if text.None? then None
    else match HexDecode(text.value)
      case Some(b) => if |b| == 32 then Some(Reverse(b)) else None
      case None => None
  }

  function MerkleBranch(txs: seq<TemplateTx>): seq<Hash32> {
    if txs == [] then []
    else (if BranchEntry(txs[0]).Some? then [BranchEntry(txs[0]).value] else []) + MerkleBranch(txs[1..])
  }

  /**
   The branch has an entry for every transaction exactly when every transaction's id is usable;
   those that are not are dropped.
   */
  lemma {:induction false} BranchIsWhole(txs: seq<TemplateTx>)
    ensures |MerkleBranch(txs)| <= |txs|
    ensures |MerkleBranch(txs)| == |txs| <==> forall k :: 0 <= k < |txs| ==> BranchEntry(txs[k]).Some?
  {
    if txs != [] {
      BranchIsWhole(txs[1..]);
      if |MerkleBranch(txs)| == |txs| {
        forall k | 0 <= k < |txs| ensures BranchEntry(txs[k]).Some? {
          assert k > 0 ==> txs[k] == txs[1..][k - 1];
        }
      } else if BranchEntry(txs[0]).Some? {
        var k :| 0 <= k < |txs[1..]| && BranchEntry(txs[1..][k]).None?;
        assert txs[k + 1] == txs[1..][k];
      }
    }
  }

  /** And then it lists them in order. */
  lemma {:induction false} BranchOfEntries(txs: seq<TemplateTx>, ids: seq<Hash32>)
    requires |ids| == |txs| && forall k :: 0 <= k < |txs| ==> BranchEntry(txs[k]) == Some(ids[k])
    ensures MerkleBranch(txs) == ids
  {
    if txs != [] {
      forall k | 0 <= k < |txs[1..]| ensures BranchEntry(txs[1..][k]) == Some(ids[1..][k]) {
        assert txs[1..][k] == txs[k + 1] && ids[1..][k] == ids[k + 1];
      }
      BranchOfEntries(txs[1..], ids[1..]);
      assert ids == [ids[0]] + ids[1..];
    }
  }

  /** The id of one transaction, in the terms of the template: its txid, or its hash when it has no txid. */
  lemma EntryExactly(tx: TemplateTx, id: Hash32)
    ensures BranchEntry(tx) == Some(id) <==>
              var text := if tx.txid.Some? then tx.txid else tx.hash;
              && text.Some? && HexDecode(text.value).Some? && |HexDecode(text.value).value| == 32
              && forall p :: 0 <= p < 32 ==> id[p] == HexDecode(text.value).value[31 - p]
  {
    var text := if tx.txid.Some? then tx.txid else tx.hash;
    if text.Some? && HexDecode(text.value).Some? && |HexDecode(text.value).value| == 32 {
      var b := HexDecode(text.value).value;
      if forall p :: 0 <= p < 32 ==> id[p] == b[31 - p] {
        assert id == Reverse(b);
      }
    }
  }

  /** The branch has the id of each transaction that has a usable one, in the order of the transactions. */
  lemma {:induction false} BranchConcat(a: seq<TemplateTx>, b: seq<TemplateTx>)
    ensures MerkleBranch(a + b) == MerkleBranch(a) + MerkleBranch(b)
    decreases |a|
  {
    if a == [] {
      assert a + b == b && [] + MerkleBranch(b) == MerkleBranch(b);
    } else {
      BranchConcat(a[1..], b);
      assert (a + b)[1..] == a[1..] + b;
    }
  }

  lemma BranchOfOne(tx: TemplateTx)
    ensures MerkleBranch([tx]) == if BranchEntry(tx).Some? then [BranchEntry(tx).value] else []
  {
    assert [tx][1..] == [];
  }

  /** `build_merkle_branch`. */
  method BuildMerkleBranch(txs: seq<TemplateTx>) returns (branch: seq<Hash32>)
    ensures branch == MerkleBranch(txs)
  {
    branch := [];
    for k := 0 to |txs|
      invariant branch + MerkleBranch(txs[k..]) == MerkleBranch(txs)
    {
      var entry := BranchEntry(txs[k]);
      assert txs[k..][1..] == txs[k + 1..];
      ghost var before := branch;
      if entry.Some? {
        branch := branch + [entry.value];
        assert before + ([entry.value] + MerkleBranch(txs[k + 1..])) == branch + MerkleBranch(txs[k + 1..]);
      } else {
        assert [] + MerkleBranch(txs[k + 1..]) == MerkleBranch(txs[k + 1..]);
      }
    }
    assert txs[|txs|..] == [];
  }

  /** The template's hexadecimal fields, decoded. */
  datatype Decoded = Decoded(
    prevHash: Hash32,
    nbits: u32,
    flags: Option<bytes>,
    commitment: Option<bytes>,
    transactions: seq<bytes>)

  /** The fields are decoded in this order; the first one that fails fails the template. */
  function DecodeTemplate(t: BlockTemplate): Result<Decoded, PoolError> {
    match (DecodePrevHash(t.previousblockhash), DecodeBits(t.bits))
    case (Err(e), _) => Err(e)
    case (_, Err(e)) => Err(e)
    case (Ok(prevHash), Ok(nbits)) =>
      match (DecodeOptionalHex(t.coinbaseauxFlags, "coinbaseaux.flags hex"),
             DecodeOptionalHex(t.defaultWitnessCommitment, "default_witness_commitment hex"),
             DecodeTransactions(t.transactions))
      case (Err(e), _, _) => Err(e)
      case (_, Err(e), _) => Err(e)
      case (_, _, Err(e)) => Err(e)
      case (Ok(flags), Ok(commitment), Ok(transactions)) =>
        Ok(Decoded(prevHash, nbits, flags, commitment, transactions))
  }

  /** The coinbase fields a template asks for. */
  function TemplateInputs(t: BlockTemplate, d: Decoded, payout: bytes): CoinbaseInputs {
    CoinbaseInputs(t.height, t.coinbasevalue, payout, d.flags, d.commitment)
  }

  function AssembleJob(t: BlockTemplate, d: Decoded, part1: bytes, part2: bytes): Job {
    Job(Decimal(t.height), d.prevHash, part1, part2, MerkleBranch(t.transactions), t.version, d.nbits,
        t.curtime % 0x1_0000_0000, true,
        Some(BlockAssembly(t.height, t.coinbasevalue, d.flags, d.transactions, d.commitment)))
  }

  /** `template_to_job`. */
  function TemplateToJob(t: BlockTemplate, payout: bytes): Result<Job, PoolError> {
    match DecodeTemplate(t)
    case Err(e) => Err(e)
    case Ok(d) => FromParts(t, d, CoinbaseParts(TemplateInputs(t, d, payout)))
  }

  function FromParts(t: BlockTemplate, d: Decoded, parts: Result<(bytes, bytes), PoolError>): Result<Job, PoolError> {
    match parts
    case Err(e) => Err(e)
    case Ok((part1, part2)) => Ok(AssembleJob(t, d, part1, part2))
  }

  /** Every job made from a template is assembled from the decoded fields and the split coinbase. */
  lemma JobFromTemplate(t: BlockTemplate, payout: bytes, job: Job)
    requires TemplateToJob(t, payout) == Ok(job)
    ensures DecodeTemplate(t).Ok?
    ensures var d := DecodeTemplate(t).value;
            && CoinbaseParts(TemplateInputs(t, d, payout)) == Ok((job.coinbasePart1, job.coinbasePart2))
            && job == AssembleJob(t, d, job.coinbasePart1, job.coinbasePart2)
  {
    PartsOfJob(t, DecodeTemplate(t).value, CoinbaseParts(TemplateInputs(t, DecodeTemplate(t).value, payout)), job);
  }

  lemma PartsOfJob(t: BlockTemplate, d: Decoded, parts: Result<(bytes, bytes), PoolError>, job: Job)
    requires FromParts(t, d, parts) == Ok(job)
    ensures parts == Ok((job.coinbasePart1, job.coinbasePart2))
    ensures job == AssembleJob(t, d, job.coinbasePart1, job.coinbasePart2)
  {
  }

  /** A template makes a job exactly when its hexadecimal fields decode and there is someone to pay. */
  lemma JobMadeExactly(t: BlockTemplate, payout: bytes)
    ensures TemplateToJob(t, payout).Ok? <==> DecodeTemplate(t).Ok? && payout != []
  {
    if DecodeTemplate(t).Ok? {
      var d := DecodeTemplate(t).value;
      PartsExist(TemplateInputs(t, d, payout));
      PartsDecide(t, d, CoinbaseParts(TemplateInputs(t, d, payout)));
    }
  }

  lemma PartsDecide(t: BlockTemplate, d: Decoded, parts: Result<(bytes, bytes), PoolError>)
    ensures FromParts(t, d, parts).Ok? <==> parts.Ok?
  {
  }

  // What the template says

  /** There is text in the field, blanks aside. */
  predicate HasText(field: Option<string>) {
    field.Some? && Trim(field.value) != ""
  }

  /** The bytes an optional field spells, blanks around it aside. */
  function FieldBytes(field: Option<string>): Option<bytes> {
    if HasText(field) then HexDecode(Trim(field.value)) else None
  }

  lemma OptionalHexExactly(field: Option<string>, error: string)
    ensures DecodeOptionalHex(field, error).Ok? <==> (HasText(field) ==> FieldBytes(field).Some?)
    ensures DecodeOptionalHex(field, error).Ok? ==> DecodeOptionalHex(field, error).value == FieldBytes(field)
  {
  }

  lemma {:induction false} TransactionsExactly(txs: seq<TemplateTx>)
    ensures DecodeTransactions(txs).Ok? <==> forall k :: 0 <= k < |txs| ==> HexDecode(txs[k].data).Some?
    ensures DecodeTransactions(txs).Ok? ==> SpelledBy(DecodeTransactions(txs).value, txs)
  {
    if txs != [] {
      TransactionsExactly(txs[1..]);
      if DecodeTransactions(txs).Ok? {
        assert forall k :: 0 < k < |txs| ==> txs[k] == txs[1..][k - 1];
      } else if HexDecode(txs[0].data).Some? {
        var k :| 0 <= k < |txs[1..]| && HexDecode(txs[1..][k].data).None?;
        assert txs[k + 1] == txs[1..][k];
      }
    }
  }

  /** Each of these byte strings is the one its transaction's text spells. */
  predicate SpelledBy(datas: seq<bytes>, txs: seq<TemplateTx>) {
    |datas| == |txs| && forall k :: 0 <= k < |txs| ==> HexDecode(txs[k].data) == Some(datas[k])
  }

  /** What the job keeps for the block: height, value, flags, commitment and transactions as the template has them. */
  predicate KeptFor(a: BlockAssembly, t: BlockTemplate) {
    && a.height == t.height && a.coinbaseValue == t.coinbasevalue
    && a.auxFlags == FieldBytes(t.coinbaseauxFlags)
    && a.witnessCommitment == FieldBytes(t.defaultWitnessCommitment)
    && a.witnessCommitment.Some? == HasText(t.defaultWitnessCommitment)
    && SpelledBy(a.templateTransactions, t.transactions)
  }

  /** The hash is what the text spells, backwards. */
  predicate SpelledBackwards(h: Hash32, text: string) {
    var b := HexDecode(text);
    b.Some? && |b.value| == 32 && forall p :: 0 <= p < 32 ==> h[p] == b.value[31 - p]
  }

  /** Every field that must be there decodes to its length, and every other one decodes. */
  predicate Decodable(t: BlockTemplate) {
    && HexDecode(t.previousblockhash).Some? && |HexDecode(t.previousblockhash).value| == 32
    && HexDecode(t.bits).Some? && |HexDecode(t.bits).value| == 4
    && (HasText(t.coinbaseauxFlags) ==> FieldBytes(t.coinbaseauxFlags).Some?)
    && (HasText(t.defaultWitnessCommitment) ==> FieldBytes(t.defaultWitnessCommitment).Some?)
    && forall k :: 0 <= k < |t.transactions| ==> HexDecode(t.transactions[k].data).Some?
  }

  lemma DecodesExactly(t: BlockTemplate)
    ensures DecodeTemplate(t).Ok? <==> Decodable(t)
  {
    OptionalHexExactly(t.coinbaseauxFlags, "coinbaseaux.flags hex");
    OptionalHexExactly(t.defaultWitnessCommitment, "default_witness_commitment hex");
    TransactionsExactly(t.transactions);
  }

  /** A template makes a job if and only if its fields decode and there is someone to pay. */
  lemma JobMadeIfDecodable(t: BlockTemplate, payout: bytes)
    ensures TemplateToJob(t, payout).Ok? <==> Decodable(t) && payout != []
  {
    DecodesExactly(t);
    JobMadeExactly(t, payout);
  }

  /** The error names the first field that fails, in the order in which they are decoded. */
  lemma FirstFieldError(t: BlockTemplate)
    requires DecodeTemplate(t).Err?
    ensures var prev, bits := HexDecode(t.previousblockhash), HexDecode(t.bits);
            DecodeTemplate(t).error
            == if prev.None? then Daemon("prev_hash hex")
               else if |prev.value| != 32 then Daemon("prev_hash length")
               else if bits.None? then Daemon("bits hex")
               else if |bits.value| != 4 then Daemon("bits length")
               else if HasText(t.coinbaseauxFlags) && FieldBytes(t.coinbaseauxFlags).None? then
                 Daemon("coinbaseaux.flags hex")
               else if HasText(t.defaultWitnessCommitment) && FieldBytes(t.defaultWitnessCommitment).None? then
                 Daemon("default_witness_commitment hex")
               else Daemon("transaction data hex")
  {
    TransactionError(t.transactions);
  }

  lemma {:induction false} TransactionError(txs: seq<TemplateTx>)
    ensures DecodeTransactions(txs).Err? ==> DecodeTransactions(txs).error == Daemon("transaction data hex")
  {
    if txs != [] {
      TransactionError(txs[1..]);
    }
  }

  lemma DecodedFields(t: BlockTemplate, d: Decoded)
    requires DecodeTemplate(t) == Ok(d)
    ensures SpelledBackwards(d.prevHash, t.previousblockhash) && HexDecode(t.bits) == Some(BeBytes(d.nbits, 4))
    ensures d.flags == FieldBytes(t.coinbaseauxFlags)
    ensures d.commitment == FieldBytes(t.defaultWitnessCommitment)
    ensures d.commitment.Some? == HasText(t.defaultWitnessCommitment)
    ensures SpelledBy(d.transactions, t.transactions)
  {
    OptionalHexExactly(t.coinbaseauxFlags, "coinbaseaux.flags hex");
    OptionalHexExactly(t.defaultWitnessCommitment, "default_witness_commitment hex");
    TransactionsExactly(t.transactions);
    BeRoundTrip(HexDecode(t.bits).value);
  }

  /**
   Every job made from a template carries the template's own fields: the id is the height in
   decimal, the previous hash is reversed, nBits are read most significant byte first, the time
   is cut to 32 bits, and the rest is kept for the block.
   */
  lemma JobFields(t: BlockTemplate, payout: bytes, job: Job)
    requires TemplateToJob(t, payout) == Ok(job)
    ensures DecimalValue(job.jobId) == t.height && job.version == t.version && job.cleanJobs
    ensures job.ntime == t.curtime % 0x1_0000_0000
    ensures SpelledBackwards(job.prevHash, t.previousblockhash) && HexDecode(t.bits) == Some(BeBytes(job.nbits, 4))
    ensures job.blockAssembly.Some? && KeptFor(job.blockAssembly.value, t)
  {
    JobFromTemplate(t, payout, job);
    DecodedFields(t, DecodeTemplate(t).value);
    DecimalReads(t.height);
  }

  /** The coinbase is asked for with the template's height, value, flags and commitment, and the payout script. */
  lemma InputsAreTemplates(t: BlockTemplate, payout: bytes)
    requires DecodeTemplate(t).Ok?
    ensures var i := TemplateInputs(t, DecodeTemplate(t).value, payout);
            && i.height == t.height && i.coinbaseValue == t.coinbasevalue && i.payoutScriptPubkey == payout
            && i.auxFlags == FieldBytes(t.coinbaseauxFlags)
            && i.witnessCommitment == FieldBytes(t.defaultWitnessCommitment)
  {
    DecodedFields(t, DecodeTemplate(t).value);
  }

  /** Two template jobs share an id exactly when they are for the same height. */
  lemma JobIdIsHeight(t: BlockTemplate, u: BlockTemplate, payout: bytes, a: Job, b: Job)
    requires TemplateToJob(t, payout) == Ok(a) && TemplateToJob(u, payout) == Ok(b)
    ensures a.jobId == b.jobId <==> t.height == u.height
    ensures a.Height() == t.height
  {
    JobFromTemplate(t, payout, a);
    JobFromTemplate(u, payout, b);
    if Decimal(t.height) == Decimal(u.height) {
      DecimalInjective(t.height, u.height);
    }
  }
}
