/** What the block that a run submits commits to, when the template gives its transactions' true ids. */
module CommittedRuns {
  import opened Bytes
  import opened Wrappers
  import opened Hex
  import opened Codecs
  import opened Transactions
  import opened Jobs
  import opened TemplateMapper
  import opened ShareValidator
  import opened RawBlock
  import opened ShareProcessor
  import opened Merkle
  import opened DomainMapper
  import opened Session
  import opened Pool
  import opened EndToEnd
  import opened PlainTemplates
  import opened FullSession
  import opened Commitment

  /** The ids of the transactions that these byte strings parse to. */
  function TrueTxIds(h: Hasher, datas: seq<bytes>): (ids: seq<Hash32>)
    requires AllValid(datas)
    ensures |ids| == |datas|
  {
    TxIds(h, ParsedWith(TX_CODEC, datas))
  }

  // The block's transactions are the template's

  lemma PartsFit(raw: bytes)
    requires ParseAll(BLOCK_CODEC, raw).Some?
    ensures AllFit(TX_CODEC, ParseAll(BLOCK_CODEC, raw).value.transactions)
  {
    BlockLawful();
    PrintOfParseAll(BLOCK_CODEC, raw);
  }

  lemma ParsedAgain(c: Codec<Transaction>, txs: seq<Transaction>, datas: seq<bytes>)
    requires Lawful(c) && AllParse(c, datas) && |txs| == |datas| + 1 && AllFit(c, txs)
    requires forall k :: 0 <= k < |datas| ==> c.encode(txs[k + 1]) == datas[k]
    ensures txs[1..] == ParsedWith(c, datas)
  {
    forall k | 0 <= k < |datas| ensures txs[1..][k] == ParsedWith(c, datas)[k] {
      assert c.fits(txs[k + 1]);
      ParseAllOfPrint(c, txs[k + 1]);
      ParsedAt(c, datas, k);
    }
  }

  lemma OtherIdsAreTrue(h: Hasher, raw: bytes, job: Job, datas: seq<bytes>)
    requires BlockFor(h, raw, job) && AllValid(datas) && job.blockAssembly.value.templateTransactions == datas
    ensures OtherIds(h, raw) == TrueTxIds(h, datas)
  {
    TxLawful();
    PartsFit(raw);
    ParsedAgain(TX_CODEC, ParseAll(BLOCK_CODEC, raw).value.transactions, datas);
  }

  /** A block of a job with true ids commits to all transactions when its header's fold is their root. */
  lemma TrueBlockCommits(h: Hasher, raw: bytes, job: Job, datas: seq<bytes>)
    requires BlockFor(h, raw, job) && AllValid(datas) && job.blockAssembly.value.templateTransactions == datas
    requires job.merkleBranch == TrueTxIds(h, datas)
    ensures CommitsToAll(h, raw) <==> FoldIsRoot(h, FirstId(h, raw), TrueTxIds(h, datas))
  {
    OtherIdsAreTrue(h, raw, job, datas);
    CommitsWhenFoldIsRoot(h, raw, job);
  }

  predicate FoldIsRoot(h: Hasher, leaf: Hash32, ids: seq<Hash32>) {
    Fold(h, leaf, ids) == MerkleRoot(h, [leaf] + ids)
  }

  // The run

  /** The template with these transactions under their true ids. */
  function TrueTemplate(h: Hasher, height: u64, prevHash: bytes, bits: bytes, datas: seq<bytes>): BlockTemplate
    requires AllValid(datas)
  {
    PlainTemplate(height, prevHash, bits, datas, TrueTxIds(h, datas))
  }

  /** The run submits exactly one block, and that commits to all of its transactions. */
  predicate RunCommits(h: Hasher, initialDifficulty: u32, poolDifficulty: u32, events: seq<Event>) {
    var w := Run(Azcoin(h, initialDifficulty, poolDifficulty), START_WORLD, events);
    |w.past.sent| == 1 && CommitsToAll(h, w.past.sent[0].candidate.rawBlock)
  }

  /** What the job of such a template carries. */
  predicate TrueJob(h: Hasher, height: u64, prevHash: bytes, datas: seq<bytes>, job: Job) {
    AllValid(datas) && Carries(job, height, prevHash, datas, TrueTxIds(h, datas))
  }

  /** In the run of one miner, the one block commits to all exactly when its fold is the root. */
  lemma MinersBlockCommits(h: Hasher, initialDifficulty: u32, poolDifficulty: u32, height: u64, prevHash: bytes,
                           datas: seq<bytes>, t: BlockTemplate, payout: bytes, job: Job, user: string, sub: Submission)
    returns (leaf: Hash32)
    requires Ready(t, payout, job) && TrueJob(h, height, prevHash, datas, job)
    requires Proper(sub, user, job) && Solves(h, job, FirstShare(sub), BeBytes(1, 4))
    ensures RunCommits(h, initialDifficulty, poolDifficulty, AloneRun(user, job, sub)) <==>
              FoldIsRoot(h, leaf, TrueTxIds(h, datas))
  {
    MinerToBlock(h, initialDifficulty, poolDifficulty, t, payout, job, user, sub);
    leaf := OneBlockCommits(h, Run(Azcoin(h, initialDifficulty, poolDifficulty), START_WORLD,
                                   AloneRun(user, job, sub)).past.sent,
                            height, prevHash, datas, payout, Pending(FirstShare(sub), job), job);
  }

  lemma OneBlockCommits(h: Hasher, sent: seq<SentBlock>, height: u64, prevHash: bytes, datas: seq<bytes>,
                        payout: bytes, won: Pending, job: Job)
    returns (leaf: Hash32)
    requires SendsBlock(h, payout, [], sent, won, job) && TrueJob(h, height, prevHash, datas, job)
    ensures |sent| == 1
    ensures CommitsToAll(h, sent[0].candidate.rawBlock) <==> FoldIsRoot(h, leaf, TrueTxIds(h, datas))
  {
    var b: SentBlock :| sent == [] + [b] && b.won == won && b.job == job && Sound(h, payout, b);
    assert sent[0] == b;
    leaf := FirstId(h, b.candidate.rawBlock);
    TrueBlockCommits(h, b.candidate.rawBlock, job, datas);
  }

  // A hash for which it does not

  lemma LastIdOf(h: Hasher, txs: seq<Transaction>, form: bytes)
    requires txs != [] && form == PrintLegacy(txs[|txs| - 1])
    ensures Last(TxIds(h, txs)) == h(form)
  {
  }

  /** The splitter keeps the id of the last of these transactions apart, and makes headers low. */
  predicate Splits(s: Splitter, ids: seq<Hash32>) {
    s.Valid() && s.low == Zeros(32) && |ids| >= 2 && Last(ids) == s.last
  }

  lemma SplitterOf(datas: seq<bytes>) returns (s: Splitter)
    requires AllValid(datas) && |datas| >= 2
    ensures Splits(s, TrueTxIds(s.Hasher(), datas))
  {
    var txs := ParsedWith(TX_CODEC, datas);
    var form := PrintLegacy(txs[|txs| - 1]);
    s := SplitterFor(form, Zeros(32));
    LastIdOf(s.Hasher(), txs, form);
  }

  lemma SplitterSeparates(s: Splitter, leaf: Hash32, ids: seq<Hash32>)
    requires Splits(s, ids)
    ensures Fold(s.Hasher(), leaf, ids) == s.mark && !FoldIsRoot(s.Hasher(), leaf, ids)
  {
    s.Separates(leaf, ids);
  }

  /** A job whose branch ends in the splitter's id is solved: its root is the mark, and headers are low. */
  lemma SplitterSolves(s: Splitter, job: Job, share: Share, e: bytes)
    requires Splits(s, job.merkleBranch)
    requires ResolvedVersion(job.version, share).Ok?
    ensures Solves(s.Hasher(), job, share, e)
  {
    var h := s.Hasher();
    SplitterSeparates(s, h(MinerCoinbase(job, e, share.extraNonce2)), job.merkleBranch);
    var header := SolvedHeader(h, job, share, e).value;
    HeaderFields(ResolvedVersion(job.version, share).value, job.prevHash, s.mark, share.ntime, job.nbits, share.nonce);
    assert h(header) == Zeros(32);
    ZerosRead();
  }

  lemma FirstShareSolves(s: Splitter, job: Job, sub: Submission)
    requires Splits(s, job.merkleBranch) && sub.versionBits == None
    ensures Solves(s.Hasher(), job, FirstShare(sub), BeBytes(1, 4))
  {
    SplitterSolves(s, job, FirstShare(sub), BeBytes(1, 4));
  }

  lemma ZerosRead()
    ensures Be(Reverse(Zeros(32))) == 0
  {
    assert Reverse(Zeros(32)) == Zeros(32);
    BeZeros(32);
  }

  /** Every template with true ids, every hash: the run's one block commits to all of its transactions. */
  ghost predicate AlwaysCommits(initialDifficulty: u32, poolDifficulty: u32, height: u64, prevHash: bytes, bits: bytes,
                                datas: seq<bytes>, payout: bytes, user: string, sub: Submission)
    requires AllValid(datas)
  {
    forall h: Hasher, job: Job ::
      CleanJob(TrueTemplate(h, height, prevHash, bits, datas), payout, job)
      && Solves(h, job, FirstShare(sub), BeBytes(1, 4)) ==>
        RunCommits(h, initialDifficulty, poolDifficulty, AloneRun(user, job, sub))
  }

  lemma TheJobIsTrue(h: Hasher, height: u64, prevHash: bytes, bits: bytes, datas: seq<bytes>, payout: bytes)
    returns (t: BlockTemplate, job: Job)
    requires Plain(height, prevHash, bits, datas, payout)
    ensures t == TrueTemplate(h, height, prevHash, bits, datas) && Ready(t, payout, job)
    ensures TrueJob(h, height, prevHash, datas, job)
    ensures forall other: Job :: CleanJob(t, payout, other) ==> other == job
  {
    t := TrueTemplate(h, height, prevHash, bits, datas);
    job := PlainTemplateMakesJob(height, prevHash, bits, datas, TrueTxIds(h, datas), payout);
  }

  /** The submission of this user for this height's job. */
  predicate ForHeight(sub: Submission, user: string, height: u64) {
    sub.username == user && sub.jobId == Decimal(height) && |sub.extraNonce2| == 4 && sub.versionBits == None
  }

  lemma FewCommit(h: Hasher, initialDifficulty: u32, poolDifficulty: u32, height: u64, prevHash: bytes, bits: bytes,
                  datas: seq<bytes>, payout: bytes, user: string, sub: Submission, job: Job)
    requires Plain(height, prevHash, bits, datas, payout) && ForHeight(sub, user, height) && |datas| <= 1
    requires CleanJob(TrueTemplate(h, height, prevHash, bits, datas), payout, job)
    requires Solves(h, job, FirstShare(sub), BeBytes(1, 4))
    ensures RunCommits(h, initialDifficulty, poolDifficulty, AloneRun(user, job, sub))
  {
    var t, own := TheJobIsTrue(h, height, prevHash, bits, datas, payout);
    var leaf := MinersBlockCommits(h, initialDifficulty, poolDifficulty, height, prevHash, datas, t, payout, job,
                                   user, sub);
    FoldIsMerkleRoot(h, leaf, TrueTxIds(h, datas));
  }

  lemma SplitterRunMisses(s: Splitter, initialDifficulty: u32, poolDifficulty: u32, height: u64, prevHash: bytes,
                          datas: seq<bytes>, t: BlockTemplate, payout: bytes, job: Job, user: string, sub: Submission)
    requires Ready(t, payout, job) && TrueJob(s.Hasher(), height, prevHash, datas, job)
    requires Splits(s, job.merkleBranch) && Proper(sub, user, job)
    requires Solves(s.Hasher(), job, FirstShare(sub), BeBytes(1, 4))
    ensures !RunCommits(s.Hasher(), initialDifficulty, poolDifficulty, AloneRun(user, job, sub))
  {
    var leaf := MinersBlockCommits(s.Hasher(), initialDifficulty, poolDifficulty, height, prevHash, datas, t, payout,
                                   job, user, sub);
    SplitterSeparates(s, leaf, job.merkleBranch);
  }

  /** The template's job under such a hash, which the share solves. */
  lemma SplitterJob(height: u64, prevHash: bytes, bits: bytes, datas: seq<bytes>, payout: bytes, sub: Submission)
    returns (s: Splitter, t: BlockTemplate, job: Job)
    requires Plain(height, prevHash, bits, datas, payout) && |datas| >= 2 && sub.versionBits == None
    ensures t == TrueTemplate(s.Hasher(), height, prevHash, bits, datas) && Ready(t, payout, job)
    ensures TrueJob(s.Hasher(), height, prevHash, datas, job) && Splits(s, job.merkleBranch)
    ensures Solves(s.Hasher(), job, FirstShare(sub), BeBytes(1, 4))
  {
    s := SplitterOf(datas);
    t, job := TheJobIsTrue(s.Hasher(), height, prevHash, bits, datas, payout);
    FirstShareSolves(s, job, sub);
  }

  /**
   With two transactions or more, whatever they are: a hash under which the template with their
   true ids makes a job whose solved block is submitted and does not commit to them all.
   */
  lemma ManyDoNotCommit(initialDifficulty: u32, poolDifficulty: u32, height: u64, prevHash: bytes, bits: bytes,
                        datas: seq<bytes>, payout: bytes, user: string, sub: Submission)
    returns (h: Hasher, job: Job)
    requires Plain(height, prevHash, bits, datas, payout) && ForHeight(sub, user, height) && |datas| >= 2
    ensures CleanJob(TrueTemplate(h, height, prevHash, bits, datas), payout, job)
    ensures Solves(h, job, FirstShare(sub), BeBytes(1, 4))
    ensures !RunCommits(h, initialDifficulty, poolDifficulty, AloneRun(user, job, sub))
  {
    var s, t;
    s, t, job := SplitterJob(height, prevHash, bits, datas, payout, sub);
    h := s.Hasher();
    SplitterRunMisses(s, initialDifficulty, poolDifficulty, height, prevHash, datas, t, payout, job, user, sub);
  }

  /**
   For every list of transactions that parse, in the run of one miner over the template that
   lists them under their true ids: the submitted block commits to all of its transactions,
   under every hash function, if and only if there is at most one besides the coinbase.
   */
  lemma TrueIdsCommitExactly(initialDifficulty: u32, poolDifficulty: u32, height: u64, prevHash: bytes, bits: bytes,
                             datas: seq<bytes>, payout: bytes, user: string, sub: Submission)
    requires Plain(height, prevHash, bits, datas, payout) && ForHeight(sub, user, height)
    ensures AlwaysCommits(initialDifficulty, poolDifficulty, height, prevHash, bits, datas, payout, user, sub) <==>
              |datas| <= 1
  {
    if |datas| <= 1 {
      forall h: Hasher, job: Job | CleanJob(TrueTemplate(h, height, prevHash, bits, datas), payout, job)
                                   && Solves(h, job, FirstShare(sub), BeBytes(1, 4))
        ensures RunCommits(h, initialDifficulty, poolDifficulty, AloneRun(user, job, sub))
      {
        FewCommit(h, initialDifficulty, poolDifficulty, height, prevHash, bits, datas, payout, user, sub, job);
      }
    } else {
      var h, job := ManyDoNotCommit(initialDifficulty, poolDifficulty, height, prevHash, bits, datas, payout, user,
                                    sub);
    }
  }

  /** Such transactions exist: here is a run whose one block, with two of them, leaves one uncommitted. */
  lemma BlockLeavesOneOut(initialDifficulty: u32, poolDifficulty: u32, height: u64, prevHash: bytes, bits: bytes,
                          payout: bytes, user: string, sub: Submission)
    returns (datas: seq<bytes>, h: Hasher, job: Job)
    requires Plain(height, prevHash, bits, [], payout) && ForHeight(sub, user, height)
    ensures |datas| == 2 && datas[0] != datas[1] && Countable(datas)
    ensures CleanJob(TrueTemplate(h, height, prevHash, bits, datas), payout, job)
    ensures Solves(h, job, FirstShare(sub), BeBytes(1, 4))
    ensures !RunCommits(h, initialDifficulty, poolDifficulty, AloneRun(user, job, sub))
  {
    datas := TwoTransactions();
    h, job := ManyDoNotCommit(initialDifficulty, poolDifficulty, height, prevHash, bits, datas, payout, user, sub);
  }
}
