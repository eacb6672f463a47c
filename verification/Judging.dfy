/**
 Which job a share is judged against when all jobs are made from templates, and what a credit
 is worth.
 */
module Judging {
  import opened Bytes
  import opened Wrappers
  import opened Jobs
  import opened TemplateMapper
  import opened Target
  import opened ShareValidator
  import opened JobRegistry
  import opened ShareLog
  import opened ShareProcessor
  import opened DomainMapper
  import opened Session
  import opened SessionRules
  import opened Pool
  import opened PoolRules
  import opened PoolRuns
  import opened EndToEnd

  lemma TemplatesAreClean(payout: bytes)
    ensures OnlyClean(FromTemplates(payout))
  {
    forall job: Job | FromTemplates(payout)(job) ensures job.cleanJobs {
      var t: BlockTemplate :| MadeFrom(t, payout, job);
      JobFromTemplate(t, payout, job);
    }
  }

  /** The verdict on a share when `last` is the only job there is. */
  function JudgedOn(h: Hasher, difficulty: u32, last: Job, share: Share): ShareResult {
    if ShapeError(share).Some? then Rejected(ShapeError(share).value)
    else if share.jobId != last.jobId then UnknownJob(NoSuchJob(share.jobId))
    else Validated(last, Some(AzcoinValidator(h)), difficulty, share)
  }

  lemma ProcessedOnLast(h: Hasher, difficulty: u32, r: Registry, last: Job, share: Share)
    requires Lookup(r, share.jobId) == if share.jobId == last.jobId then Some(last) else None
    ensures Processed(r, Some(AzcoinValidator(h)), difficulty, share) == JudgedOn(h, difficulty, last, share)
  {
  }

  /** Processing a share that passes the gate logs exactly this verdict. */
  ghost predicate Judges(h: Hasher, difficulty: u32, before: World, after: World, i: nat, share: Share, job: Job) {
    var result := JudgedOn(h, difficulty, job, share);
    && after.past.attempts == before.past.attempts + [AttemptOf(share, result)]
    && (result.IsAccepted() ==> after.past.credits == before.past.credits + [Credit(i, share, Some(job), result)])
  }

  /**
   In every run over template jobs, a session that was sent a job has every share it submits
   judged against the job that the whole pool registered last, whichever session that was sent
   to: against its own last job if and only if that is the one.
   */
  lemma SharesJudgedOnLast(h: Hasher, initialDifficulty: u32, poolDifficulty: u32, payout: bytes, events: seq<Event>,
                           i: nat, sub: Submission, writes: Writes)
    requires AllBring(FromTemplates(payout), events)
    requires var w := Run(Azcoin(h, initialDifficulty, poolDifficulty), START_WORLD, events);
             Idle(w, i) && LastJob(w.peers[i].conn.written).Some? && Gate(w.peers[i].conn.state, sub).Ok?
    ensures var s := Azcoin(h, initialDifficulty, poolDifficulty);
            var w := Run(s, START_WORLD, events);
            && w.past.registered != []
            && Judges(h, poolDifficulty, w, Step(s, w, Request(i, Submit(sub), None, writes)), i,
                      Gate(w.peers[i].conn.state, sub).value, LastRegistered(w))
            && (Lookup(w.shared.registry, LastJob(w.peers[i].conn.written).value.jobId)
                  == LastJob(w.peers[i].conn.written)
                <==> LastJob(w.peers[i].conn.written).value == LastRegistered(w))
  {
    var s := Azcoin(h, initialDifficulty, poolDifficulty);
    var w := Run(s, START_WORLD, events);
    AzcoinTrusted(h, initialDifficulty, poolDifficulty);
    TemplatesAreClean(payout);
    JudgedAgainst(s, Earned(h, poolDifficulty), FromTemplates(payout), events, i);
    var share := Gate(w.peers[i].conn.state, sub).value;
    ProcessedOnLast(h, poolDifficulty, w.shared.registry, LastRegistered(w), share);
    SubmitIsJudged(h, initialDifficulty, poolDifficulty, w, i, sub, writes, LastRegistered(w));
  }

  lemma SubmitIsJudged(h: Hasher, initialDifficulty: u32, poolDifficulty: u32, w: World, i: nat, sub: Submission,
                       writes: Writes, last: Job)
    requires Idle(w, i) && Gate(w.peers[i].conn.state, sub).Ok?
    requires var share := Gate(w.peers[i].conn.state, sub).value;
             && Lookup(w.shared.registry, share.jobId) == (if share.jobId == last.jobId then Some(last) else None)
             && Processed(w.shared.registry, Some(AzcoinValidator(h)), poolDifficulty, share)
                == JudgedOn(h, poolDifficulty, last, share)
    ensures Judges(h, poolDifficulty, w,
                   Step(Azcoin(h, initialDifficulty, poolDifficulty), w, Request(i, Submit(sub), None, writes)), i,
                   Gate(w.peers[i].conn.state, sub).value, last)
  {
    NoteVerdict(Azcoin(h, initialDifficulty, poolDifficulty), w, i, sub, writes);
  }

  lemma NoteVerdict(s: Settings, w: World, i: nat, sub: Submission, writes: Writes)
    requires Idle(w, i) && Gate(w.peers[i].conn.state, sub).Ok?
    ensures var share := Gate(w.peers[i].conn.state, sub).value;
            var result := s.judge(w.shared.registry, share);
            var after := Step(s, w, Request(i, Submit(sub), None, writes));
            && after.past.attempts == w.past.attempts + [AttemptOf(share, result)]
            && after.past.credits
               == if result.IsAccepted() then
                    w.past.credits + [Credit(i, share, Lookup(w.shared.registry, share.jobId), result)]
                  else w.past.credits
  {
  }

  // What a credited share is worth

  /** The job was sent to the miner right after a difficulty line with this value. */
  predicate AnnouncedAt(out: seq<Message>, job: Job, d: u32) {
    exists k :: 0 < k < |out| && out[k - 1] == SetDifficulty(d) && out[k] == MiningNotify(job)
  }

  lemma AnnouncedWithDifficulty(out: seq<Message>, job: Job, d: u32, jobs: seq<Job>)
    requires Announced(out, job) && LinesOk(out, d, jobs)
    ensures AnnouncedAt(out, job, d)
  {
    var k :| 0 < k < |out| && out[k - 1].SetDifficulty? && out[k] == MiningNotify(job);
    assert LineOk(out[k - 1], d, jobs);
  }

  /**
   A header's hash is at most the job's target, or at most the pool's, in exact arithmetic: the
   hash times the pool difficulty, at least one, is at most the difficulty-1 target.
   */
  predicate IsWork(hash: nat, nbits: u32, difficulty: u32, result: ShareResult) {
    if result == ShareResult.Block then
      && hash <= TargetValue(nbits)
      && (3 <= nbits / 0x100_0000 <= 32 ==> hash <= nbits % 0x100_0000 * Pow256(nbits / 0x100_0000 - 3))
    else hash * (if difficulty == 0 then 1 else difficulty) <= 0xffff * Pow256(26)
  }

  /** The share's rebuilt header is work on the job. */
  predicate Works(h: Hasher, job: Job, share: Share, difficulty: u32, result: ShareResult) {
    && SessionExtranonce(share).Some?
    && var header := SolvedHeader(h, job, share, SessionExtranonce(share).value);
    header.Ok? && IsWork(Le(h(header.value)), job.nbits, difficulty, result)
  }

  lemma EarnedIsWork(h: Hasher, difficulty: u32, job: Job, share: Share, result: ShareResult)
    requires IsEarned(h, difficulty, job, share, result) && result.IsAccepted()
    ensures Works(h, job, share, difficulty, result)
  {
    var header := SolvedHeader(h, job, share, SessionExtranonce(share).value).value;
    HashReads(h, header);
    ClassIsWork(HashValue(h, header), job.nbits, difficulty);
  }

  lemma ClassIsWork(hash: nat, nbits: u32, difficulty: u32)
    requires Classify(hash, nbits, difficulty).IsAccepted()
    ensures IsWork(hash, nbits, difficulty, Classify(hash, nbits, difficulty))
  {
    ShareTargetExact(hash, AtLeastOne(difficulty));
    if 3 <= nbits / 0x100_0000 <= 32 {
      ExpandedExactly(nbits);
    }
  }

  /**
   In every run, each credit is for a header whose hash is at most the target it is credited for,
   on a job that some session was sent right after the pool's initial difficulty; when that is
   the pool's share difficulty too, the share meets the difficulty its job was announced with.
   */
  lemma CreditsAreWork(h: Hasher, initialDifficulty: u32, poolDifficulty: u32, from: Origin, events: seq<Event>,
                       c: Credit) returns (i: nat)
    requires AllBring(from, events)
    requires c in Run(Azcoin(h, initialDifficulty, poolDifficulty), START_WORLD, events).past.credits
    ensures c.job.Some? && Works(h, c.job.value, c.share, poolDifficulty, c.result)
    ensures var w := Run(Azcoin(h, initialDifficulty, poolDifficulty), START_WORLD, events);
            i < |w.peers| && AnnouncedAt(w.peers[i].conn.written, c.job.value, initialDifficulty)
  {
    var s, worth := Azcoin(h, initialDifficulty, poolDifficulty), Earned(h, poolDifficulty);
    AzcoinTrusted(h, initialDifficulty, poolDifficulty);
    ReachableOk(s, worth, from, events);
    var w := Run(s, START_WORLD, events);
    assert CreditOk(worth, from, w, c);
    EarnedIsWork(h, poolDifficulty, c.job.value, c.share, c.result);
    i :| 0 <= i < |w.peers| && Announced(w.peers[i].conn.written, c.job.value);
    AnnouncedWithDifficulty(w.peers[i].conn.written, c.job.value, initialDifficulty, w.past.registered);
  }
}
