/**
 From submit to submitblock: in every run of the pool, what is handed to the submitter is a
 block that a miner solved, as long as the registry entry it is built from gives the share the
 same header as the one the share was judged against.
 */
module EndToEnd {
  import opened Bytes
  import opened Wrappers
  import opened Hex
  import opened Codecs
  import opened Transactions
  import opened Coinbase
  import opened CoinbaseSplit
  import opened Jobs
  import opened TemplateMapper
  import opened Target
  import opened ShareValidator
  import opened RawBlock
  import opened CandidateSubmit
  import opened JobRegistry
  import opened ShareProcessor
  import opened SubmitHandler
  import opened SameWork
  import opened VersionRolling
  import opened Session
  import opened SessionRules
  import opened Pool
  import opened PoolRules
  import opened PoolRuns

  /** The pool with the coin's validator and block assembly. */
  function Azcoin(h: Hasher, initialDifficulty: u32, poolDifficulty: u32): Settings {
    Settings(initialDifficulty, Judge(h, poolDifficulty), AssembleWith(h))
  }

  /** The share passed the shape checks, its header can be rebuilt, and the result is the header's class. */
  predicate IsEarned(h: Hasher, difficulty: u32, job: Job, share: Share, result: ShareResult) {
    && ShapeError(share).None? && SessionExtranonce(share).Some?
    && Classified(h, job, share, SessionExtranonce(share).value, difficulty, result)
  }

  function Earned(h: Hasher, difficulty: u32): Worth {
    (job: Job, share: Share, result: ShareResult) => IsEarned(h, difficulty, job, share, result)
  }

  /** The pool's judge accepts exactly what is earned. */
  lemma AzcoinTrusted(h: Hasher, initialDifficulty: u32, poolDifficulty: u32)
    ensures Trusted(Azcoin(h, initialDifficulty, poolDifficulty), Earned(h, poolDifficulty))
  {
    var s, worth := Azcoin(h, initialDifficulty, poolDifficulty), Earned(h, poolDifficulty);
    forall r: Registry, share: Share | s.judge(r, share).IsAccepted()
      ensures Lookup(r, share.jobId).Some? && worth(Lookup(r, share.jobId).value, share, s.judge(r, share))
    {
      ProcessedCases(h, r, poolDifficulty, share);
    }
  }

  // Jobs made from templates

  /** The sizes a process can hold: flags that one push can carry, the rest below 2^63 bytes. */
  predicate Sized(i: CoinbaseInputs) {
    |FlagBytes(i)| + 8 < 0x1_0000_0000 && InputsMachineSized(i)
  }

  predicate MadeFrom(t: BlockTemplate, payout: bytes, job: Job) {
    TemplateToJob(t, payout) == Ok(job) && DecodeTemplate(t).Ok? && Sized(CoinbaseOf(t, payout))
  }

  function CoinbaseOf(t: BlockTemplate, payout: bytes): CoinbaseInputs
    requires DecodeTemplate(t).Ok?
  {
    TemplateInputs(t, DecodeTemplate(t).value, payout)
  }

  /** Made from this template, which splits cleanly. */
  predicate CleanJob(t: BlockTemplate, payout: bytes, job: Job) {
    MadeFrom(t, payout, job) && SplitsCleanly(CoinbaseOf(t, payout))
  }

  ghost predicate IsTemplateJob(payout: bytes, job: Job) {
    exists t: BlockTemplate :: MadeFrom(t, payout, job)
  }

  ghost function FromTemplates(payout: bytes): Origin {
    (job: Job) => IsTemplateJob(payout, job)
  }

  lemma TemplateJobLooksLegacy(payout: bytes, job: Job)
    requires IsTemplateJob(payout, job)
    ensures LooksLegacy(job.coinbasePart1)
  {
    var t: BlockTemplate :| MadeFrom(t, payout, job);
    JobFromTemplate(t, payout, job);
    CutIsLegacy(CoinbaseOf(t, payout), job.coinbasePart1, job.coinbasePart2);
  }

  lemma CutIsLegacy(i: CoinbaseInputs, part1: bytes, part2: bytes)
    requires Sized(i) && CoinbaseParts(i) == Ok((part1, part2))
    ensures LooksLegacy(part1)
  {
    PartsLookLegacy(i);
  }

  /** Around any eight bytes the job's parts are the template's coinbase, if it splits cleanly. */
  lemma TemplateCoinbase(t: BlockTemplate, payout: bytes, job: Job, e1: bytes, e2: bytes)
    requires MadeFrom(t, payout, job) && SplitsCleanly(CoinbaseOf(t, payout)) && |e1| + |e2| == 8
    ensures FilledProperly(CoinbaseOf(t, payout), e1 + e2, MinerCoinbase(job, e1, e2))
  {
    JobFromTemplate(t, payout, job);
    JoinedExtranonces(job, e1, e2);
    CutFills(CoinbaseOf(t, payout), job.coinbasePart1, job.coinbasePart2, e1 + e2, MinerCoinbase(job, e1, e2));
  }

  lemma CutFills(i: CoinbaseInputs, part1: bytes, part2: bytes, e: bytes, coinbase: bytes)
    requires Sized(i) && SplitsCleanly(i) && |e| == 8
    requires CoinbaseParts(i) == Ok((part1, part2)) && coinbase == part1 + e + part2
    ensures FilledProperly(i, e, coinbase)
  {
    FilledPartsParse(i, e);
  }

  lemma JoinedExtranonces(job: Job, e1: bytes, e2: bytes)
    ensures MinerCoinbase(job, e1, e2) == job.coinbasePart1 + (e1 + e2) + job.coinbasePart2
  {
  }

  // What is read off a raw block

  lemma RawStartsWithHeader(raw: bytes)
    requires ParseAll(BLOCK_CODEC, raw).Some?
    ensures |raw| >= 80 && raw[..80] == ParseAll(BLOCK_CODEC, raw).value.header
  {
    BlockLawful();
    PrintOfParseAll(BLOCK_CODEC, raw);
    var b := ParseAll(BLOCK_CODEC, raw).value;
    HeaderPrefix(b.header, Counted(TX_CODEC).encode(b.transactions), raw);
  }

  lemma HeaderPrefix(header: bytes, rest: bytes, raw: bytes)
    requires raw == header + rest && |header| == 80
    ensures |raw| >= 80 && raw[..80] == header
  {
  }

  /**
   The raw block is one for this job: the header's previous hash and target are the job's, its
   Merkle field folds the branch from the txid of the block's first transaction, its version
   differs from the job's only in standard rolling bits, and after the first transaction come
   the template's, byte for byte and in order.
   */
  ghost predicate BlockFor(h: Hasher, raw: bytes, job: Job) {
    var block := ParseAll(BLOCK_CODEC, raw);
    && job.blockAssembly.Some?
    && |raw| >= 80 && block.Some?
    && |block.value.transactions| == 1 + |job.blockAssembly.value.templateTransactions|
    && raw[4..36] == job.prevHash
    && raw[36..68] == Fold(h, h(PrintLegacy(block.value.transactions[0])), job.merkleBranch)
    && raw[72..76] == LeBytes(job.nbits, 4)
    && StandardRoll(job.version, HeaderVersion(raw[..80]))
    && forall k :: 0 <= k < |job.blockAssembly.value.templateTransactions| ==>
         TX_CODEC.encode(block.value.transactions[k + 1]) == job.blockAssembly.value.templateTransactions[k]
  }

  predicate StandardRoll(version: bv32, v: bv32) {
    v & !ROLLING_MASK == version & !ROLLING_MASK
  }

  lemma RollStaysStandard(version: bv32, mask: bv32, bits: bv32, v: bv32)
    requires Within(mask, ROLLING_MASK) && Merged(version, mask, bits, v)
    ensures StandardRoll(version, v)
  {
  }

  /** The raw block's hash meets the job's own target. */
  predicate MeetsTarget(h: Hasher, raw: bytes, job: Job) {
    |raw| >= 80 && HashValue(h, raw[..80]) <= TargetValue(job.nbits)
  }

  /** The transaction is a coinbase with these outputs and with this height and data in its script. */
  predicate IsPaid(tx: Transaction, value: nat, payout: bytes, commitment: Option<bytes>, height: int, data: bytes) {
    && IsCoinbase(tx) && PaysOut(tx.outputs, value, payout, commitment)
    && ParseScriptSig(tx.inputs[0].scriptSig) == Some((height, Some(data)))
  }

  function OrEmpty(b: Option<bytes>): bytes {
    if b.Some? then b.value else []
  }

  /**
   The block's first transaction is a coinbase that pays the template's value to the payout
   script and carries the template's commitment, if it has one; its script is the template's
   height and its flags followed by the extranonces.
   */
  predicate PaysTemplate(raw: bytes, t: BlockTemplate, payout: bytes, e: bytes) {
    var block := ParseAll(BLOCK_CODEC, raw);
    && block.Some? && block.value.transactions != []
    && IsPaid(block.value.transactions[0], t.coinbasevalue, payout, FieldBytes(t.defaultWitnessCommitment),
              t.height, OrEmpty(FieldBytes(t.coinbaseauxFlags)) + e)
  }

  /** The block's first transaction has the witness nonce on its first input, or no witness at all. */
  predicate HasNonce(raw: bytes, committed: bool) {
    var block := ParseAll(BLOCK_CODEC, raw);
    && block.Some? && block.value.transactions != []
    && var witnesses := block.value.transactions[0].witnesses;
    && witnesses != []
    && (committed ==> witnesses[0] == [Zeros(32)])
    && (!committed ==> forall k :: 0 <= k < |witnesses| ==> witnesses[k] == [])
  }

  lemma CommittedIsBlockFor(h: Hasher, job: Job, share: Share, e: bytes, candidate: BlockCandidate)
    requires Commits(h, candidate, job, share, e) && RollsStandardBits(share)
    ensures BlockFor(h, candidate.rawBlock, job)
    ensures candidate.rawBlock[..80] == SolvedHeader(h, job, share, e).value
  {
    var raw, header := candidate.rawBlock, SolvedHeader(h, job, share, e).value;
    RawStartsWithHeader(raw);
    var version := ResolvedVersion(job.version, share).value;
    var coinbase := MinerCoinbase(job, e, share.extraNonce2);
    HeaderFields(version, job.prevHash, CommittedRoot(h, job, coinbase), share.ntime, job.nbits, share.nonce);
    SliceOfPrefix(raw, header);
    RebuiltVersion(h, job, share, e);
    RolledIsStandard(job.version, share, HeaderVersion(header));
  }

  lemma SliceOfPrefix(raw: bytes, header: bytes)
    requires |raw| >= 80 && raw[..80] == header
    ensures raw[4..36] == header[4..36] && raw[36..68] == header[36..68] && raw[72..76] == header[72..76]
  {
  }

  lemma RolledIsStandard(version: bv32, share: Share, v: bv32)
    requires Rolled(version, share, v) && RollsStandardBits(share)
    ensures StandardRoll(version, v)
  {
    if share.context.Some? && share.context.value.versionBits.Some? {
      var ctx := share.context.value;
      RollStaysStandard(version, ctx.versionRollingMask.value, ctx.versionBits.value, v);
    }
  }

  lemma CommittedPays(h: Hasher, job: Job, share: Share, e: bytes, candidate: BlockCandidate, i: CoinbaseInputs)
    requires Commits(h, candidate, job, share, e)
    requires FilledProperly(i, e + share.extraNonce2, MinerCoinbase(job, e, share.extraNonce2))
    ensures ParseAll(BLOCK_CODEC, candidate.rawBlock).Some?
    ensures var block := ParseAll(BLOCK_CODEC, candidate.rawBlock).value;
            && block.transactions != []
            && IsPaid(block.transactions[0], i.coinbaseValue, i.payoutScriptPubkey, i.witnessCommitment, i.height,
                      FlagBytes(i) + (e + share.extraNonce2))
  {
  }

  lemma NonceAsKept(h: Hasher, job: Job, share: Share, e: bytes, candidate: BlockCandidate)
    requires Commits(h, candidate, job, share, e) && LooksLegacy(job.coinbasePart1)
    ensures HasNonce(candidate.rawBlock, job.blockAssembly.value.witnessCommitment.Some?)
  {
    var coinbase := MinerCoinbase(job, e, share.extraNonce2);
    assert coinbase[4] == job.coinbasePart1[4];
    LegacyBytesAreHashed(coinbase);
  }

  // The main result

  /** Everything claimed of one block handed to the submitter. */
  ghost predicate Sound(h: Hasher, payout: bytes, b: SentBlock) {
    var raw := b.candidate.rawBlock;
    var e := SessionExtranonce(b.won.share);
    && e.Some?
    && |e.value| == |b.won.share.extraNonce2| && |e.value| in {0, 4}
    && b.candidate.height == b.job.Height()
    && BlockFor(h, raw, b.job)
    && (MeetsTarget(h, raw, b.job) <==> Solves(h, b.job, b.won.share, e.value))
    && (SameHeader(b.won.job, b.job, b.won.share, e.value) ==> MeetsTarget(h, raw, b.job))
    && (|e.value| == 4 ==> PaysItsTemplate(payout, raw, b.job, e.value + b.won.share.extraNonce2))
    && NonceForCommitment(payout, raw, b.job)
  }

  /** Whatever template the job was made from, if it splits cleanly the block pays it. */
  ghost predicate PaysItsTemplate(payout: bytes, raw: bytes, job: Job, e: bytes) {
    forall t: BlockTemplate :: MadeFrom(t, payout, job) && SplitsCleanly(CoinbaseOf(t, payout)) ==>
      PaysTemplate(raw, t, payout, e)
  }

  /** The witness nonce is there exactly when the template the job was made from has a commitment. */
  ghost predicate NonceForCommitment(payout: bytes, raw: bytes, job: Job) {
    forall t: BlockTemplate :: MadeFrom(t, payout, job) ==> HasNonce(raw, HasText(t.defaultWitnessCommitment))
  }

  lemma CommittedHasNonce(h: Hasher, payout: bytes, job: Job, share: Share, e: bytes, candidate: BlockCandidate)
    requires Commits(h, candidate, job, share, e) && LooksLegacy(job.coinbasePart1)
    ensures NonceForCommitment(payout, candidate.rawBlock, job)
  {
    NonceAsKept(h, job, share, e, candidate);
    forall t: BlockTemplate | MadeFrom(t, payout, job)
      ensures HasNonce(candidate.rawBlock, HasText(t.defaultWitnessCommitment))
    {
      JobFields(t, payout, job);
    }
  }

  lemma PaysWhenAsked(raw: bytes, i: CoinbaseInputs, t: BlockTemplate, payout: bytes, tx: Transaction, e: bytes)
    requires ParseAll(BLOCK_CODEC, raw).Some? && ParseAll(BLOCK_CODEC, raw).value.transactions != []
    requires tx == ParseAll(BLOCK_CODEC, raw).value.transactions[0]
    requires IsPaid(tx, i.coinbaseValue, i.payoutScriptPubkey, i.witnessCommitment, i.height, FlagBytes(i) + e)
    requires i.height == t.height && i.coinbaseValue == t.coinbasevalue && i.payoutScriptPubkey == payout
    requires i.auxFlags == FieldBytes(t.coinbaseauxFlags)
    requires i.witnessCommitment == FieldBytes(t.defaultWitnessCommitment)
    ensures PaysTemplate(raw, t, payout, e)
  {
  }

  lemma CommittedPaysOne(h: Hasher, payout: bytes, job: Job, share: Share, e: bytes, candidate: BlockCandidate,
                         t: BlockTemplate, i: CoinbaseInputs)
    requires Commits(h, candidate, job, share, e) && |e| == |share.extraNonce2| == 4
    requires CleanJob(t, payout, job) && i == CoinbaseOf(t, payout)
    ensures PaysTemplate(candidate.rawBlock, t, payout, e + share.extraNonce2)
  {
    TemplateCoinbase(t, payout, job, e, share.extraNonce2);
    CommittedPays(h, job, share, e, candidate, i);
    InputsAreTemplates(t, payout);
    PaysWhenAsked(candidate.rawBlock, i, t, payout, ParseAll(BLOCK_CODEC, candidate.rawBlock).value.transactions[0],
                  e + share.extraNonce2);
  }

  lemma CommittedPaysItsTemplate(h: Hasher, payout: bytes, job: Job, share: Share, e: bytes, candidate: BlockCandidate)
    requires Commits(h, candidate, job, share, e) && |e| == |share.extraNonce2| == 4
    ensures PaysItsTemplate(payout, candidate.rawBlock, job, e + share.extraNonce2)
  {
    forall t: BlockTemplate | MadeFrom(t, payout, job) && SplitsCleanly(CoinbaseOf(t, payout))
      ensures PaysTemplate(candidate.rawBlock, t, payout, e + share.extraNonce2)
    {
      CommittedPaysOne(h, payout, job, share, e, candidate, t, CoinbaseOf(t, payout));
    }
  }

  /** The block meets the target of the job it was built from exactly when the share solves that job. */
  lemma CommittedTarget(h: Hasher, job: Job, share: Share, e: bytes, candidate: BlockCandidate)
    requires Commits(h, candidate, job, share, e)
    ensures MeetsTarget(h, candidate.rawBlock, job) <==> Solves(h, job, share, e)
  {
    RawStartsWithHeader(candidate.rawBlock);
  }

  lemma EarnedBlockIsLow(h: Hasher, difficulty: u32, job: Job, share: Share)
    requires IsEarned(h, difficulty, job, share, ShareResult.Block)
    ensures Solves(h, job, share, SessionExtranonce(share).value)
  {
  }

  lemma SentIsSound(h: Hasher, initialDifficulty: u32, poolDifficulty: u32, payout: bytes, w: World, b: SentBlock)
    requires SentOk(Azcoin(h, initialDifficulty, poolDifficulty), Earned(h, poolDifficulty),
                    FromTemplates(payout), w, b)
    ensures Sound(h, payout, b)
  {
    var share := b.won.share;
    assert Assembled(h, b.job, share) == Some(b.candidate);
    assert IsEarned(h, poolDifficulty, b.won.job, share, ShareResult.Block);
    BuiltIsSound(h, poolDifficulty, payout, b);
  }

  lemma BuiltIsSound(h: Hasher, poolDifficulty: u32, payout: bytes, b: SentBlock)
    requires IsTemplateJob(payout, b.job) && Gated(b.won.share)
    requires Assembled(h, b.job, b.won.share) == Some(b.candidate)
    requires IsEarned(h, poolDifficulty, b.won.job, b.won.share, ShareResult.Block)
    ensures Sound(h, payout, b)
  {
    var share := b.won.share;
    TemplateJobLooksLegacy(payout, b.job);
    GatedShareFills(share);
    var e := SessionExtranonce(share).value;
    AssembledCommits(h, b.job, share, b.candidate);
    CommittedIsBlockFor(h, b.job, share, e, b.candidate);
    CommittedTarget(h, b.job, share, e, b.candidate);
    EarnedBlockIsLow(h, poolDifficulty, b.won.job, share);
    CarriesOver(h, b.won.job, b.job, share, e);
    CommittedHasNonce(h, payout, b.job, share, e, b.candidate);
    if |e| == 4 {
      CommittedPaysItsTemplate(h, payout, b.job, share, e, b.candidate);
    }
  }

  lemma CarriesOver(h: Hasher, a: Job, b: Job, share: Share, e: bytes)
    ensures SameHeader(a, b, share, e) && Solves(h, a, share, e) ==> Solves(h, b, share, e)
  {
    if SameHeader(a, b, share, e) {
      SameHeaderSolves(h, a, b, share, e);
    }
  }

  /**
   In every run over template jobs, every block handed to the submitter is one for its job and
   commits to its own first transaction; if the registry's entry at the second read gives the
   share the same header as the entry at the first, its hash meets the job's target; and if the
   session subscribed and the template splits cleanly, its first transaction is the template's
   coinbase with the session's extranonces.
   */
  lemma SubmittedBlocksAreSolved(h: Hasher, initialDifficulty: u32, poolDifficulty: u32, payout: bytes,
                                 events: seq<Event>)
    requires AllBring(FromTemplates(payout), events)
    ensures var w := Run(Azcoin(h, initialDifficulty, poolDifficulty), START_WORLD, events);
            && w.shared.submitted == Candidates(w.past.sent)
            && (forall b :: b in w.past.sent ==> Sound(h, payout, b))
  {
    AzcoinTrusted(h, initialDifficulty, poolDifficulty);
    var s := Azcoin(h, initialDifficulty, poolDifficulty);
    var worth, from := Earned(h, poolDifficulty), FromTemplates(payout);
    ReachableOk(s, worth, from, events);
    var w := Run(s, START_WORLD, events);
    forall b | b in w.past.sent ensures Sound(h, payout, b) {
      SentIsSound(h, initialDifficulty, poolDifficulty, payout, w, b);
    }
  }

  /** One witness item of 32 zero bytes on the first transaction, exactly if the template has a commitment. */
  predicate NonceIffCommitment(raw: bytes, t: BlockTemplate) {
    var block := ParseAll(BLOCK_CODEC, raw);
    && block.Some? && block.value.transactions != []
    && var witnesses := block.value.transactions[0].witnesses;
    witnesses != [] && (witnesses[0] == [Zeros(32)] <==> HasText(t.defaultWitnessCommitment))
  }

  /**
   The first transaction's first output pays the template's value to the payout script, and a
   second one, worth nothing and with the commitment's script, is there exactly if there is one.
   */
  predicate FirstPays(raw: bytes, t: BlockTemplate, payout: bytes) {
    var block := ParseAll(BLOCK_CODEC, raw);
    && block.Some? && block.value.transactions != []
    && var outs := block.value.transactions[0].outputs;
    && |outs| == (if HasText(t.defaultWitnessCommitment) then 2 else 1)
    && outs[0].value == t.coinbasevalue && outs[0].scriptPubkey == payout
    && (|outs| == 2 ==>
          outs[1].value == 0 && Some(outs[1].scriptPubkey) == HexDecode(Trim(t.defaultWitnessCommitment.value)))
  }

  lemma NonceReads(raw: bytes, t: BlockTemplate)
    requires HasNonce(raw, HasText(t.defaultWitnessCommitment))
    ensures NonceIffCommitment(raw, t)
  {
  }

  lemma PaysReads(raw: bytes, t: BlockTemplate, payout: bytes, e: bytes)
    requires PaysTemplate(raw, t, payout, e)
    requires FieldBytes(t.defaultWitnessCommitment).Some? == HasText(t.defaultWitnessCommitment)
    ensures FirstPays(raw, t, payout)
  {
  }

  lemma CommitmentText(t: BlockTemplate)
    requires DecodeTemplate(t).Ok?
    ensures FieldBytes(t.defaultWitnessCommitment).Some? == HasText(t.defaultWitnessCommitment)
  {
    DecodedFields(t, DecodeTemplate(t).value);
  }

  lemma SoundBlockPays(h: Hasher, payout: bytes, b: SentBlock, t: BlockTemplate)
    requires Sound(h, payout, b) && MadeFrom(t, payout, b.job)
    ensures NonceIffCommitment(b.candidate.rawBlock, t)
    ensures b.won.share.extraNonce2 != [] && SplitsCleanly(CoinbaseOf(t, payout)) ==>
              FirstPays(b.candidate.rawBlock, t, payout)
  {
    NonceReads(b.candidate.rawBlock, t);
    var e := SessionExtranonce(b.won.share).value;
    if b.won.share.extraNonce2 != [] && SplitsCleanly(CoinbaseOf(t, payout)) {
      CommitmentText(t);
      PaysReads(b.candidate.rawBlock, t, payout, e + b.won.share.extraNonce2);
    }
  }

  /**
   So every submitted block carries the witness nonce if and only if its template has a
   commitment; and for a subscribed session and a template that splits cleanly it pays the
   template's value to the payout script and lists the commitment.
   */
  lemma SubmittedBlocksPay(h: Hasher, initialDifficulty: u32, poolDifficulty: u32, payout: bytes, events: seq<Event>,
                           b: SentBlock, t: BlockTemplate)
    requires AllBring(FromTemplates(payout), events)
    requires b in Run(Azcoin(h, initialDifficulty, poolDifficulty), START_WORLD, events).past.sent
    requires MadeFrom(t, payout, b.job)
    ensures NonceIffCommitment(b.candidate.rawBlock, t)
    ensures b.won.share.extraNonce2 != [] && SplitsCleanly(CoinbaseOf(t, payout)) ==>
              FirstPays(b.candidate.rawBlock, t, payout)
  {
    SubmittedBlocksAreSolved(h, initialDifficulty, poolDifficulty, payout, events);
    SoundBlockPays(h, payout, b, t);
  }

  // When a found block is submitted

  predicate Countable(txs: seq<bytes>) {
    AllValid(txs) && 1 + |txs| < COMPACT_LIMIT
  }

  lemma CoinbaseBuilds(a: BlockAssembly, c: bytes)
    requires LooksLegacy(c)
    ensures CandidateCoinbase(a, c).Ok? && ValidTx(CandidateCoinbase(a, c).value) <==> ValidTx(c)
  {
    if a.witnessCommitment.Some? && ValidTx(c) {
      RestorationKeepsTxid(c);
    }
  }

  lemma RawBuilds(header: bytes, a: BlockAssembly, c: bytes)
    requires |header| == 80 && LooksLegacy(c)
    ensures RawOf(header, a, CandidateCoinbase(a, c)).Ok? <==> ValidTx(c) && Countable(a.templateTransactions)
  {
    CoinbaseBuilds(a, c);
  }

  lemma CandidateBuilds(job: Job, header: bytes, e1: bytes, e2: bytes)
    requires |header| == 80 && job.blockAssembly.Some? && LooksLegacy(job.coinbasePart1)
    ensures Candidate(job, header, e1, e2).Ok? <==>
              ValidTx(MinerCoinbase(job, e1, e2)) && Countable(job.blockAssembly.value.templateTransactions)
  {
    var c := MinerCoinbase(job, e1, e2);
    assert c[4] == job.coinbasePart1[4];
    RawBuilds(header, job.blockAssembly.value, c);
  }

  /** The block of a job and a share can be built: the coinbase parses and so does every template transaction. */
  predicate CanBuild(job: Job, share: Share, e: bytes) {
    && job.blockAssembly.Some?
    && ValidTx(MinerCoinbase(job, e, share.extraNonce2))
    && Countable(job.blockAssembly.value.templateTransactions)
  }

  lemma AssembledExactly(h: Hasher, job: Job, share: Share)
    requires ShapeError(share).None? && SessionExtranonce(share).Some? && LooksLegacy(job.coinbasePart1)
    ensures Assembled(h, job, share).Some? <==> CanBuild(job, share, SessionExtranonce(share).value)
  {
    var e := SessionExtranonce(share).value;
    GatesAgree(job.version, share);
    RebuiltVersion(h, job, share, e);
    var header := SolvedHeader(h, job, share, e).value;
    if job.blockAssembly.Some? {
      CandidateBuilds(job, header, e, share.extraNonce2);
    }
    CandidateDecides(h, job, share, e, header);
  }

  lemma CandidateDecides(h: Hasher, job: Job, share: Share, e: bytes, header: bytes)
    requires SessionExtranonce(share) == Some(e) && SolvedHeader(h, job, share, e) == Ok(header)
    ensures Assembled(h, job, share).Some? <==> Candidate(job, header, e, share.extraNonce2).Ok?
    ensures job.blockAssembly.None? ==> Candidate(job, header, e, share.extraNonce2).Err?
  {
  }

  /**
   For a template that splits cleanly and a subscribed session, the block can be built exactly
   when every template transaction parses.
   */
  lemma SolvedBlockBuilds(h: Hasher, t: BlockTemplate, payout: bytes, job: Job, share: Share)
    requires MadeFrom(t, payout, job) && SplitsCleanly(CoinbaseOf(t, payout))
    requires ShapeError(share).None? && SessionExtranonce(share).Some?
    requires |SessionExtranonce(share).value| == |share.extraNonce2| == 4
    ensures job.blockAssembly.Some?
    ensures Assembled(h, job, share).Some? <==> Countable(job.blockAssembly.value.templateTransactions)
  {
    var e := SessionExtranonce(share).value;
    HasAssembly(t, payout, job);
    assert IsTemplateJob(payout, job);
    TemplateJobLooksLegacy(payout, job);
    TemplateCoinbase(t, payout, job, e, share.extraNonce2);
    AssembledExactly(h, job, share);
  }

  lemma HasAssembly(t: BlockTemplate, payout: bytes, job: Job)
    requires MadeFrom(t, payout, job)
    ensures job.blockAssembly.Some?
  {
    JobFromTemplate(t, payout, job);
  }

  /** What the job source offers has the entry's id and height, or it offers nothing. */
  predicate IsCurrent(entry: Job, current: Option<Job>) {
    current.Some? ==> current.value.jobId == entry.jobId && current.value.Height() == entry.Height()
  }

  /** There is an entry under the share's id, it is current, and its block can be built. */
  predicate Submittable(r: Registry, share: Share, current: Option<Job>) {
    var entry, e := Lookup(r, share.jobId), SessionExtranonce(share);
    entry.Some? && e.Some? && IsCurrent(entry.value, current) && CanBuild(entry.value, share, e.value)
  }

  lemma OfferedWhenAssembled(assemble: Assembler, r: Registry, share: Share, current: Option<Job>)
    ensures var entry := Lookup(r, share.jobId);
            MaybeCandidate(assemble, r, share, current)
            == if entry.Some? && IsCurrent(entry.value, current) then assemble(entry.value, share) else None
  {
  }

  lemma OfferedExactly(h: Hasher, payout: bytes, r: Registry, share: Share, current: Option<Job>, entry: Option<Job>)
    requires ShapeError(share).None? && SessionExtranonce(share).Some? && entry == Lookup(r, share.jobId)
    requires entry.Some? ==> IsTemplateJob(payout, entry.value)
    ensures MaybeCandidate(AssembleWith(h), r, share, current)
         == if Submittable(r, share, current) then Assembled(h, entry.value, share) else None
    ensures Submittable(r, share, current) ==> Assembled(h, entry.value, share).Some?
  {
    OfferedWhenAssembled(AssembleWith(h), r, share, current);
    if entry.Some? {
      TemplateJobLooksLegacy(payout, entry.value);
      AssembledExactly(h, entry.value, share);
    }
  }

  lemma FinishSends(s: Settings, w: World, i: nat, current: Option<Job>, writes: Writes, won: Pending,
                    candidate: Option<BlockCandidate>)
    requires Deciding(w, i) && won == w.peers[i].conn.pending.value
    requires candidate == MaybeCandidate(s.assemble, w.shared.registry, won.share, current)
    ensures candidate.Some? ==> Lookup(w.shared.registry, won.share.jobId).Some?
    ensures Step(s, w, Finish(i, current, writes)).past.sent
         == if candidate.Some? then
              w.past.sent + [SentBlock(i, won, Lookup(w.shared.registry, won.share.jobId).value, candidate.value)]
            else w.past.sent
  {
    NoteMatches(s, w.shared.registry, w.past, i, won, current);
  }

  /** What finishing the submit of a found block sends: one more block, built from the entry found. */
  ghost predicate SendsBlock(h: Hasher, payout: bytes, before: seq<SentBlock>, after: seq<SentBlock>,
                             won: Pending, job: Job)
  {
    exists b: SentBlock :: after == before + [b] && b.won == won && b.job == job && Sound(h, payout, b)
  }

  /**
   When a session that waits on a found block finishes, a block is handed to the submitter if and
   only if the registry has an entry under the share's id, the entry is current, and its block
   can be built; it is then exactly one, built from that entry, and everything claimed of
   submitted blocks holds of it.
   */
  lemma FoundBlockIsSubmitted(h: Hasher, initialDifficulty: u32, poolDifficulty: u32, payout: bytes, w: World,
                              i: nat, won: Pending, current: Option<Job>, writes: Writes)
    requires PeersOk(Earned(h, poolDifficulty), w) && RegistryOk(FromTemplates(payout), w)
    requires Deciding(w, i) && won == w.peers[i].conn.pending.value
    ensures var after := Step(Azcoin(h, initialDifficulty, poolDifficulty), w, Finish(i, current, writes)).past.sent;
            if Submittable(w.shared.registry, won.share, current) then
              SendsBlock(h, payout, w.past.sent, after, won, Lookup(w.shared.registry, won.share.jobId).value)
            else after == w.past.sent
  {
    var s, r := Azcoin(h, initialDifficulty, poolDifficulty), w.shared.registry;
    assert PeerOk(Earned(h, poolDifficulty), w.peers[i], |w.past.broadcasts|);
    assert IsEarned(h, poolDifficulty, won.job, won.share, ShareResult.Block);
    GatedShareFills(won.share);
    var entry := Lookup(r, won.share.jobId);
    OfferedExactly(h, payout, r, won.share, current, entry);
    FinishSends(s, w, i, current, writes, won, MaybeCandidate(AssembleWith(h), r, won.share, current));
    if Submittable(r, won.share, current) {
      var b := SentBlock(i, won, entry.value, Assembled(h, entry.value, won.share).value);
      BuiltIsSound(h, poolDifficulty, payout, b);
      SendsThis(h, payout, w.past.sent, b);
    }
  }

  lemma SendsThis(h: Hasher, payout: bytes, before: seq<SentBlock>, b: SentBlock)
    requires Sound(h, payout, b)
    ensures SendsBlock(h, payout, before, before + [b], b.won, b.job)
  {
  }
}
