/** When a submitted block's header commits to all of the block's transactions. */
module Commitment {
  import opened Bytes
  import opened Wrappers
  import opened Codecs
  import opened Transactions
  import opened Jobs
  import opened TemplateMapper
  import opened ShareValidator
  import opened Merkle
  import opened Pool
  import opened PoolRuns
  import opened EndToEnd

  function TxIds(h: Hasher, txs: seq<Transaction>): (ids: seq<Hash32>)
    ensures |ids| == |txs| && forall k :: 0 <= k < |txs| ==> ids[k] == h(PrintLegacy(txs[k]))
  {
    if txs == [] then [] else [h(PrintLegacy(txs[0]))] + TxIds(h, txs[1..])
  }

  lemma IdsOf(h: Hasher, txs: seq<Transaction>)
    requires txs != []
    ensures TxIds(h, txs) == [h(PrintLegacy(txs[0]))] + TxIds(h, txs[1..])
  {
  }

  /** The ids of the transactions after the first one. */
  function OtherIds(h: Hasher, raw: bytes): seq<Hash32>
    requires ParseAll(BLOCK_CODEC, raw).Some? && ParseAll(BLOCK_CODEC, raw).value.transactions != []
  {
    TxIds(h, ParseAll(BLOCK_CODEC, raw).value.transactions[1..])
  }

  function FirstId(h: Hasher, raw: bytes): Hash32
    requires ParseAll(BLOCK_CODEC, raw).Some? && ParseAll(BLOCK_CODEC, raw).value.transactions != []
  {
    h(PrintLegacy(ParseAll(BLOCK_CODEC, raw).value.transactions[0]))
  }

  /** The block parses and its header's Merkle field is the root over the ids of all its transactions. */
  predicate CommitsToAll(h: Hasher, raw: bytes) {
    var block := ParseAll(BLOCK_CODEC, raw);
    && block.Some? && block.value.transactions != [] && |raw| >= 80
    && raw[36..68] == MerkleRoot(h, TxIds(h, block.value.transactions))
  }

  lemma AllIds(h: Hasher, raw: bytes)
    requires ParseAll(BLOCK_CODEC, raw).Some? && ParseAll(BLOCK_CODEC, raw).value.transactions != []
    ensures TxIds(h, ParseAll(BLOCK_CODEC, raw).value.transactions) == [FirstId(h, raw)] + OtherIds(h, raw)
  {
    IdsOf(h, ParseAll(BLOCK_CODEC, raw).value.transactions);
  }

  /** The header's field is the fold of the branch: the block commits to all when that fold is the root. */
  lemma CommitsWhenFoldIsRoot(h: Hasher, raw: bytes, job: Job)
    requires BlockFor(h, raw, job)
    ensures CommitsToAll(h, raw) <==>
              Fold(h, FirstId(h, raw), job.merkleBranch) == MerkleRoot(h, [FirstId(h, raw)] + OtherIds(h, raw))
  {
    AllIds(h, raw);
  }

  /** Two explicit inputs collide, or hashing on from an explicit digest comes back to it. */
  predicate CollisionOrCycle(h: Hasher, leaf: Hash32, ids: seq<Hash32>)
    requires |ids| >= 2
  {
    IsCollision(h, FinalJoins(h, leaf, ids, ids)) || OnCycle(h, Last(ids), Lefts(h, [leaf] + ids))
  }

  /**
   If the job's branch lists the ids of the block's other transactions, the header commits to
   all of them when there is at most one; with two or more it does only if two explicit inputs
   collide or the last id lies on an explicit cycle.
   */
  lemma TrueBranch(h: Hasher, raw: bytes, job: Job)
    requires BlockFor(h, raw, job) && job.merkleBranch == OtherIds(h, raw)
    ensures |OtherIds(h, raw)| <= 1 ==> CommitsToAll(h, raw)
    ensures |OtherIds(h, raw)| >= 2 && CommitsToAll(h, raw) ==>
              CollisionOrCycle(h, FirstId(h, raw), OtherIds(h, raw))
  {
    var leaf, ids := FirstId(h, raw), OtherIds(h, raw);
    CommitsWhenFoldIsRoot(h, raw, job);
    if |ids| <= 1 {
      FoldIsMerkleRoot(h, leaf, ids);
    } else if CommitsToAll(h, raw) {
      FoldIsNotMerkleRoot(h, leaf, ids);
    }
  }

  /**
   Whatever the branch lists: if it is empty although the block has other transactions, the
   header commits to all exactly when the first id lies on a cycle; if it is not, the header commits
   to all exactly when the last two hashed inputs are equal or collide, and they are equal only
   if the branch's last entry is the right half of the block's own tree.
   */
  lemma AnyBranch(h: Hasher, raw: bytes, job: Job)
    requires BlockFor(h, raw, job) && OtherIds(h, raw) != []
    ensures var leaf, ids := FirstId(h, raw), OtherIds(h, raw);
            if job.merkleBranch == [] then
              && Path(h, [leaf] + ids) != []
              && (CommitsToAll(h, raw) <==> Fold(h, leaf, Path(h, [leaf] + ids)) == leaf)
            else
              var joins := FinalJoins(h, leaf, job.merkleBranch, ids);
              && (CommitsToAll(h, raw) <==> joins.0 == joins.1 || IsCollision(h, joins))
              && (joins.0 == joins.1 ==> Last(job.merkleBranch) == Climb(h, Last(ids), Lefts(h, [leaf] + ids)))
  {
    var leaf, ids := FirstId(h, raw), OtherIds(h, raw);
    CommitsWhenFoldIsRoot(h, raw, job);
    if job.merkleBranch != [] {
      FoldMeetsRoot(h, leaf, job.merkleBranch, ids);
    } else {
      EmptyBranchIsRoot(h, leaf, ids);
    }
  }

  /** The template gives every transaction of the block its true id, in text that decodes. */
  predicate TrueIds(t: BlockTemplate, ids: seq<Hash32>) {
    |t.transactions| == |ids| && forall k :: 0 <= k < |ids| ==> BranchEntry(t.transactions[k]) == Some(ids[k])
  }

  /** For a block of a template job whose template gives true ids, the branch lists exactly them. */
  lemma TemplateBranch(h: Hasher, t: BlockTemplate, payout: bytes, job: Job, raw: bytes)
    requires MadeFrom(t, payout, job) && BlockFor(h, raw, job) && TrueIds(t, OtherIds(h, raw))
    ensures job.merkleBranch == OtherIds(h, raw)
  {
    JobFromTemplate(t, payout, job);
    BranchOfEntries(t.transactions, OtherIds(h, raw));
  }

  /**
   So with true ids and at most one template transaction the block commits to all its
   transactions, and with more it does only by a collision or a cycle.
   */
  lemma TemplateBlockCommits(h: Hasher, t: BlockTemplate, payout: bytes, job: Job, raw: bytes)
    requires MadeFrom(t, payout, job) && BlockFor(h, raw, job) && TrueIds(t, OtherIds(h, raw))
    ensures if |t.transactions| <= 1 then CommitsToAll(h, raw)
            else CommitsToAll(h, raw) ==> CollisionOrCycle(h, FirstId(h, raw), OtherIds(h, raw))
  {
    TemplateBranch(h, t, payout, job, raw);
    TrueBranch(h, raw, job);
  }

  /** What the block's header commits to, given the template of its job. */
  ghost predicate CommitsAsListed(h: Hasher, t: BlockTemplate, job: Job, raw: bytes) {
    && BlockFor(h, raw, job)
    && (TrueIds(t, OtherIds(h, raw)) ==>
          if |t.transactions| <= 1 then CommitsToAll(h, raw)
          else CommitsToAll(h, raw) ==> CollisionOrCycle(h, FirstId(h, raw), OtherIds(h, raw)))
  }

  /** The same of every block submitted in any run. */
  lemma SubmittedBlocksCommit(h: Hasher, initialDifficulty: u32, poolDifficulty: u32, payout: bytes,
                              events: seq<Event>, b: SentBlock, t: BlockTemplate)
    requires AllBring(FromTemplates(payout), events)
    requires b in Run(Azcoin(h, initialDifficulty, poolDifficulty), START_WORLD, events).past.sent
    requires MadeFrom(t, payout, b.job)
    ensures CommitsAsListed(h, t, b.job, b.candidate.rawBlock)
  {
    SubmittedBlocksAreSolved(h, initialDifficulty, poolDifficulty, payout, events);
    assert Sound(h, payout, b);
    BlockCommits(h, t, payout, b.job, b.candidate.rawBlock);
  }

  lemma BlockCommits(h: Hasher, t: BlockTemplate, payout: bytes, job: Job, raw: bytes)
    requires MadeFrom(t, payout, job) && BlockFor(h, raw, job)
    ensures CommitsAsListed(h, t, job, raw)
  {
    if TrueIds(t, OtherIds(h, raw)) {
      TemplateBlockCommits(h, t, payout, job, raw);
    }
  }
}
