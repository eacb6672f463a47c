/**
 Two sessions of one pool: what happens to a share when the other session is sent another job in
 between, and what unsubscribed sessions share.
 */
module TwoSessions {
  import opened Bytes
  import opened Wrappers
  import opened Hex
  import opened Codecs
  import opened Jobs
  import opened TemplateMapper
  import opened ShareValidator
  import opened ShareProcessor
  import opened JobRegistry
  import opened DomainMapper
  import opened Session
  import opened Pool
  import opened PoolRuns
  import opened EndToEnd
  import opened SameWork
  import opened Judging
  import opened Uniqueness
  import opened PlainTemplates
  import opened FullSession

  // A block built from another job

  /** Another session authorizes and is sent a clean job. */
  lemma AnotherAuthorizes(s: Settings, w: World, i: nat, user: string, job: Job)
    requires Idle(w, i) && w.peers[i].conn == NEW_CONN && job.cleanJobs
    ensures var next := Step(s, w, Request(i, Authorize(user), Some(job), OK));
            && |next.peers| == |w.peers| && (forall k :: 0 <= k < |w.peers| && k != i ==> next.peers[k] == w.peers[k])
            && Lookup(next.shared.registry, job.jobId) == Some(job)
            && SentOnly(next.peers[i].conn.written, job)
            && next.past.sent == w.past.sent && next.past.credits == w.past.credits
            && next.past.registered == w.past.registered + [job]
  {
    CleanLeavesOnlyTheJob(w.shared.registry, job);
    var next := Step(s, w, Request(i, Authorize(user), Some(job), OK));
    var out := next.peers[i].conn.written;
    assert out[|out| - 1] == MiningNotify(job);
  }

  /** The first miner joins and submits, another session is sent a newer job, and only then the submit finishes. */
  function ReplacingRun(user: string, other: string, a: Job, b: Job, sub: Submission): seq<Event> {
    Joining(TWO, user, a) + [Request(0, Submit(sub), None, OK)] + [Request(1, Authorize(other), Some(b), OK)]
    + [Finish(0, Some(b), OK)]
  }

  /**
   Two template jobs of one id: the first session's share is judged a block on its own job a, the
   second session is sent b before the submit finishes, and the block that is submitted is built
   from b. It meets b's target exactly when the share solves b.
   */
  lemma ReplacedBlock(h: Hasher, initialDifficulty: u32, poolDifficulty: u32, payout: bytes, a: Job, t: BlockTemplate,
                      b: Job, user: string, other: string, sub: Submission)
    requires IsTemplateJob(payout, a) && Ready(t, payout, b) && a.jobId == b.jobId
    requires Proper(sub, user, a) && Solves(h, a, FirstShare(sub), BeBytes(1, 4))
    ensures SendsBlock(h, payout, [],
                       Run(Azcoin(h, initialDifficulty, poolDifficulty), START_WORLD,
                           ReplacingRun(user, other, a, b, sub)).past.sent,
                       Pending(FirstShare(sub), a), b)
  {
    var s, joins := Azcoin(h, initialDifficulty, poolDifficulty), Request(1, Authorize(other), Some(b), OK);
    var events := Joining(TWO, user, a) + [Request(0, Submit(sub), None, OK)];
    ReadyIsTemplate(t, payout, b);
    TemplatesAreClean(payout);
    JoiningBrings(FromTemplates(payout), TWO, user, a, sub);
    AnotherBrings(FromTemplates(payout), events, 1, other, b);
    var w := SubmitsAfterJoining(h, initialDifficulty, poolDifficulty, 2, TWO, user, a, sub);
    AnotherAuthorizes(s, w, 1, other, b);
    OneMore(s, events, joins);
    RunSendsEntry(h, initialDifficulty, poolDifficulty, payout, events + [joins], Step(s, w, joins),
                  Pending(FirstShare(sub), a), sub, t, b);
  }

  /** The run's one submitted block meets the target of the job it was built from. */
  predicate OneBlockMeets(h: Hasher, initialDifficulty: u32, poolDifficulty: u32, events: seq<Event>, job: Job) {
    var w := Run(Azcoin(h, initialDifficulty, poolDifficulty), START_WORLD, events);
    |w.past.sent| == 1 && MeetsTarget(h, w.past.sent[0].candidate.rawBlock, job)
  }

  lemma ReplacedBlockMeets(h: Hasher, initialDifficulty: u32, poolDifficulty: u32, payout: bytes, a: Job,
                           t: BlockTemplate, b: Job, user: string, other: string, sub: Submission)
    requires IsTemplateJob(payout, a) && Ready(t, payout, b) && a.jobId == b.jobId
    requires Proper(sub, user, a) && Solves(h, a, FirstShare(sub), BeBytes(1, 4))
    ensures OneBlockMeets(h, initialDifficulty, poolDifficulty, ReplacingRun(user, other, a, b, sub), b) <==>
              Solves(h, b, FirstShare(sub), BeBytes(1, 4))
  {
    ReplacedBlock(h, initialDifficulty, poolDifficulty, payout, a, t, b, user, other, sub);
    FirstShareCarries(sub);
    SentMeets(h, payout, Run(Azcoin(h, initialDifficulty, poolDifficulty), START_WORLD,
                             ReplacingRun(user, other, a, b, sub)).past.sent, Pending(FirstShare(sub), a), b);
  }

  lemma SentMeets(h: Hasher, payout: bytes, sent: seq<SentBlock>, won: Pending, job: Job)
    requires SendsBlock(h, payout, [], sent, won, job) && SessionExtranonce(won.share).Some?
    ensures |sent| == 1
    ensures MeetsTarget(h, sent[0].candidate.rawBlock, job) <==>
              Solves(h, job, won.share, SessionExtranonce(won.share).value)
  {
    var b: SentBlock :| sent == [] + [b] && b.won == won && b.job == job && Sound(h, payout, b);
    assert sent[0] == b;
  }

  /** Whatever the hash, if the share solves a, the replaced block meets b's target. */
  ghost predicate AlwaysMeets(initialDifficulty: u32, poolDifficulty: u32, a: Job, b: Job, user: string, other: string,
                              sub: Submission) {
    forall h: Hasher :: Solves(h, a, FirstShare(sub), BeBytes(1, 4)) ==>
      OneBlockMeets(h, initialDifficulty, poolDifficulty, ReplacingRun(user, other, a, b, sub), b)
  }

  /**
   For every two template jobs of one id, in that run, the submitted block meets the target under
   every hash function exactly when the two jobs give the share the same header.
   */
  lemma ReplacedBlockExactly(initialDifficulty: u32, poolDifficulty: u32, payout: bytes, a: Job, t: BlockTemplate,
                             b: Job, user: string, other: string, sub: Submission)
    requires IsTemplateJob(payout, a) && Ready(t, payout, b) && a.jobId == b.jobId
    requires Proper(sub, user, a) && |a.merkleBranch| < COMPACT_LIMIT
    ensures AlwaysMeets(initialDifficulty, poolDifficulty, a, b, user, other, sub) <==>
              SameHeader(a, b, FirstShare(sub), BeBytes(1, 4))
  {
    var share, e := FirstShare(sub), BeBytes(1, 4);
    SolvesCarriesOver(a, b, share, e);
    forall h: Hasher | Solves(h, a, share, e)
      ensures OneBlockMeets(h, initialDifficulty, poolDifficulty, ReplacingRun(user, other, a, b, sub), b)
              <==> Solves(h, b, share, e)
    {
      ReplacedBlockMeets(h, initialDifficulty, poolDifficulty, payout, a, t, b, user, other, sub);
    }
  }

  /**
   Two templates of one height with different previous hashes are enough: under some hash, that
   run submits a block that misses its target.
   */
  lemma ReplacedBlockCanMiss(initialDifficulty: u32, poolDifficulty: u32, height: u64, p: bytes, q: bytes, bits: bytes,
                             payout: bytes, user: string, other: string, sub: Submission)
    returns (h: Hasher, a: Job, b: Job)
    requires Plain(height, p, bits, [], payout) && |q| == 32 && p != q
    requires sub.username == user && sub.jobId == Decimal(height) && |sub.extraNonce2| == 4 && sub.versionBits == None
    ensures IsTemplateJob(payout, a) && IsTemplateJob(payout, b) && Proper(sub, user, a)
    ensures Solves(h, a, FirstShare(sub), BeBytes(1, 4))
    ensures !OneBlockMeets(h, initialDifficulty, poolDifficulty, ReplacingRun(user, other, a, b, sub), b)
  {
    var u;
    a, u, b := TwoJobs(height, p, q, bits, payout);
    h := PreviousHashesDiffer(a, b, sub, poolDifficulty);
    ReplacedBlockMeets(h, initialDifficulty, poolDifficulty, payout, a, u, b, user, other, sub);
  }

  /** A job of this height. */
  lemma OneJob(height: u64, prevHash: bytes, bits: bytes, payout: bytes) returns (t: BlockTemplate, job: Job)
    requires Plain(height, prevHash, bits, [], payout)
    ensures Ready(t, payout, job) && IsTemplateJob(payout, job)
    ensures job.jobId == Decimal(height) && job.prevHash == Reverse(prevHash) && job.merkleBranch == []
  {
    job := PlainTemplateMakesJob(height, prevHash, bits, [], [], payout);
    t := PlainTemplate(height, prevHash, bits, [], []);
    ReadyIsTemplate(t, payout, job);
  }

  /** Two jobs of one height with different previous hashes. */
  lemma TwoJobs(height: u64, p: bytes, q: bytes, bits: bytes, payout: bytes)
    returns (a: Job, u: BlockTemplate, b: Job)
    requires Plain(height, p, bits, [], payout) && |q| == 32 && p != q
    ensures IsTemplateJob(payout, a) && IsTemplateJob(payout, b) && Ready(u, payout, b)
    ensures a.jobId == b.jobId == Decimal(height) && a.prevHash != b.prevHash && a.merkleBranch == []
  {
    var t;
    t, a := OneJob(height, p, bits, payout);
    u, b := OneJob(height, q, bits, payout);
    ReverseInvolutive(p);
    ReverseInvolutive(q);
  }

  /** Different previous hashes are told apart by some hash. */
  lemma PreviousHashesDiffer(a: Job, b: Job, sub: Submission, difficulty: u32) returns (h: Hasher)
    requires a.prevHash != b.prevHash && a.merkleBranch == [] && sub.versionBits == None
    ensures Solves(h, a, FirstShare(sub), BeBytes(1, 4)) && !Solves(h, b, FirstShare(sub), BeBytes(1, 4))
    ensures Worthless(h, b, FirstShare(sub), BeBytes(1, 4), AtLeastOne(difficulty))
  {
    h := DifferentHeadersDiffer(a, b, FirstShare(sub), BeBytes(1, 4), AtLeastOne(difficulty));
  }

  // A share judged on another job

  /** The second session is sent a newer job before the first miner submits. */
  function CrossedRun(user: string, other: string, a: Job, b: Job, sub: Submission): seq<Event> {
    Joining(TWO, user, a) + [Request(1, Authorize(other), Some(b), OK)] + [Request(0, Submit(sub), None, OK)]
  }

  /** Before the first miner submits: each session was sent its own job, and only the second one's is registered. */
  predicate Crossed(w: World, user: string, a: Job, b: Job) {
    && |w.peers| == 2 && Idle(w, 0)
    && w.peers[0].conn.state == SessionState(Some(user), true, FIRST_EXTRANONCE, 4, None, Some(a.jobId))
    && SentOnly(w.peers[0].conn.written, a) && SentOnly(w.peers[1].conn.written, b)
    && Lookup(w.shared.registry, b.jobId) == Some(b) && w.past.credits == []
  }

  lemma CrossingWorks(s: Settings, user: string, other: string, a: Job, b: Job) returns (w: World)
    requires b.cleanJobs
    ensures Crossed(w, user, a, b)
    ensures w == Run(s, START_WORLD, Joining(TWO, user, a) + [Request(1, Authorize(other), Some(b), OK)])
  {
    JoiningWorks(s, 2, TWO, user, a);
    var joined := Run(s, START_WORLD, Joining(TWO, user, a));
    AnotherAuthorizes(s, joined, 1, other, b);
    OneMore(s, Joining(TWO, user, a), Request(1, Authorize(other), Some(b), OK));
    w := Step(s, joined, Request(1, Authorize(other), Some(b), OK));
  }

  /**
   Then the first miner's share, for the only job it was ever sent, is judged against a job that
   only the other session was sent: if it solves that one it is credited as a block on it.
   */
  lemma SharedIdIsReplaced(h: Hasher, initialDifficulty: u32, poolDifficulty: u32, a: Job, b: Job,
                           user: string, other: string, sub: Submission)
    requires a.jobId == b.jobId && b.cleanJobs
    requires Proper(sub, user, a) && Solves(h, b, FirstShare(sub), BeBytes(1, 4))
    ensures var w := Run(Azcoin(h, initialDifficulty, poolDifficulty), START_WORLD, CrossedRun(user, other, a, b, sub));
            && |w.peers| == 2
            && SentOnly(w.peers[0].conn.written, a) && SentOnly(w.peers[1].conn.written, b)
            && w.past.credits == [Credit(0, FirstShare(sub), Some(b), ShareResult.Block)]
  {
    var s, submit := Azcoin(h, initialDifficulty, poolDifficulty), Request(0, Submit(sub), None, OK);
    var crossed := CrossingWorks(s, user, other, a, b);
    WinningShare(h, poolDifficulty, crossed.shared.registry, b, sub, user);
    assert Gate(crossed.peers[0].conn.state, sub) == Ok(FirstShare(sub));
    SubmitDecides(s, crossed, 0, sub, FirstShare(sub), b, OK);
    OneMore(s, Joining(TWO, user, a) + [Request(1, Authorize(other), Some(b), OK)], submit);
  }

  /** The answer to the last share was that its hash is too high, and nothing was credited. */
  predicate Refused(w: World, poolDifficulty: u32) {
    && w.past.credits == [] && w.peers != [] && w.peers[0].conn.written != []
    && w.peers[0].conn.written[|w.peers[0].conn.written| - 1]
       == Response(ShareReply(LowDifficulty(HashAboveTarget(if poolDifficulty == 0 then 1 else poolDifficulty))))
  }

  lemma WorthlessShare(h: Hasher, difficulty: u32, r: Registry, job: Job, sub: Submission, user: string)
    requires Proper(sub, user, job) && Lookup(r, job.jobId) == Some(job)
    requires Worthless(h, job, FirstShare(sub), BeBytes(1, 4), AtLeastOne(difficulty))
    ensures Processed(r, Some(AzcoinValidator(h)), difficulty, FirstShare(sub))
         == LowDifficulty(HashAboveTarget(AtLeastOne(difficulty)))
  {
    FirstShareCarries(sub);
    ProcessedCases(h, r, difficulty, FirstShare(sub));
  }

  lemma SubmitIsRefused(s: Settings, w: World, sub: Submission, difficulty: u32)
    requires Idle(w, 0) && w.past.credits == [] && Gate(w.peers[0].conn.state, sub) == Ok(FirstShare(sub))
    requires s.judge(w.shared.registry, FirstShare(sub)) == LowDifficulty(HashAboveTarget(AtLeastOne(difficulty)))
    ensures Refused(Step(s, w, Request(0, Submit(sub), None, OK)), difficulty)
  {
  }

  /** And if its header is worth nothing on that job it is refused, whatever it was worth on its own. */
  lemma SharedIdIsRefused(h: Hasher, initialDifficulty: u32, poolDifficulty: u32, a: Job, b: Job,
                          user: string, other: string, sub: Submission)
    requires a.jobId == b.jobId && b.cleanJobs && Proper(sub, user, a)
    requires Worthless(h, b, FirstShare(sub), BeBytes(1, 4), AtLeastOne(poolDifficulty))
    ensures Refused(Run(Azcoin(h, initialDifficulty, poolDifficulty), START_WORLD,
                        CrossedRun(user, other, a, b, sub)), poolDifficulty)
  {
    var s, submit := Azcoin(h, initialDifficulty, poolDifficulty), Request(0, Submit(sub), None, OK);
    var crossed := CrossingWorks(s, user, other, a, b);
    WorthlessShare(h, poolDifficulty, crossed.shared.registry, b, sub, user);
    assert Gate(crossed.peers[0].conn.state, sub) == Ok(FirstShare(sub));
    SubmitIsRefused(s, crossed, sub, poolDifficulty);
    OneMore(s, Joining(TWO, user, a) + [Request(1, Authorize(other), Some(b), OK)], submit);
  }

  /** Whatever the hash, a share that solves the session's own job is credited in that run. */
  ghost predicate AlwaysCredited(initialDifficulty: u32, poolDifficulty: u32, a: Job, b: Job, user: string,
                                 other: string, sub: Submission) {
    forall h: Hasher :: Solves(h, a, FirstShare(sub), BeBytes(1, 4)) ==>
      Run(Azcoin(h, initialDifficulty, poolDifficulty), START_WORLD, CrossedRun(user, other, a, b, sub)).past.credits
      != []
  }

  /**
   For every two jobs of one id, in that run, a share that solves the only job its session was
   sent is credited under every hash function exactly when both jobs give it the same header.
   */
  lemma CrossedShareExactly(initialDifficulty: u32, poolDifficulty: u32, a: Job, b: Job, user: string, other: string,
                            sub: Submission)
    requires a.jobId == b.jobId && b.cleanJobs && Proper(sub, user, a) && |a.merkleBranch| < COMPACT_LIMIT
    ensures AlwaysCredited(initialDifficulty, poolDifficulty, a, b, user, other, sub) <==>
              SameHeader(a, b, FirstShare(sub), BeBytes(1, 4))
  {
    var share, e := FirstShare(sub), BeBytes(1, 4);
    if SameHeader(a, b, share, e) {
      forall h: Hasher | Solves(h, a, share, e)
        ensures Run(Azcoin(h, initialDifficulty, poolDifficulty), START_WORLD,
                    CrossedRun(user, other, a, b, sub)).past.credits != []
      {
        SameHeaderSolves(h, a, b, share, e);
        SharedIdIsReplaced(h, initialDifficulty, poolDifficulty, a, b, user, other, sub);
      }
    } else {
      var h := DifferentHeadersDiffer(a, b, share, e, AtLeastOne(poolDifficulty));
      SharedIdIsRefused(h, initialDifficulty, poolDifficulty, a, b, user, other, sub);
    }
  }

  /**
   Two templates of one height with different previous hashes are enough: under some hash, a
   share that solves the only job its session was sent is answered that its hash is too high.
   */
  lemma SolvedShareIsRefused(initialDifficulty: u32, poolDifficulty: u32, height: u64, p: bytes, q: bytes, bits: bytes,
                             payout: bytes, user: string, other: string, sub: Submission)
    returns (h: Hasher, a: Job, b: Job)
    requires Plain(height, p, bits, [], payout) && |q| == 32 && p != q
    requires sub.username == user && sub.jobId == Decimal(height) && |sub.extraNonce2| == 4 && sub.versionBits == None
    ensures IsTemplateJob(payout, a) && IsTemplateJob(payout, b) && Proper(sub, user, a)
    ensures Solves(h, a, FirstShare(sub), BeBytes(1, 4))
    ensures Refused(Run(Azcoin(h, initialDifficulty, poolDifficulty), START_WORLD,
                        CrossedRun(user, other, a, b, sub)), poolDifficulty)
  {
    var u;
    a, u, b := TwoJobs(height, p, q, bits, payout);
    h := PreviousHashesDiffer(a, b, sub, poolDifficulty);
    CleanTemplateJob(payout, b);
    SharedIdIsRefused(h, initialDifficulty, poolDifficulty, a, b, user, other, sub);
  }

  lemma CleanTemplateJob(payout: bytes, job: Job)
    requires IsTemplateJob(payout, job)
    ensures job.cleanJobs
  {
    TemplatesAreClean(payout);
    assert FromTemplates(payout)(job);
  }

  // Two sessions that did not subscribe

  /** Two sessions authorize, are sent one job, and each submits a share. */
  function UnsubscribedRun(user: string, other: string, job: Job, a: Submission, b: Submission): seq<Event> {
    TWO + [Request(0, Authorize(user), Some(job), OK)] + [Request(1, Authorize(other), Some(job), OK)]
    + [Request(0, Submit(a), None, OK)] + [Request(1, Submit(b), None, OK)]
  }

  /** The session's own submission for the job, without extranonce2 and version bits. */
  predicate Bare(sub: Submission, user: string, job: Job) {
    sub.username == user && sub.jobId == job.jobId && sub.extraNonce2 == [] && sub.versionBits == None
  }

  /** The share an unsubscribed session makes of it. */
  function BareShare(sub: Submission): Share {
    Share(sub.jobId, sub.username, sub.extraNonce2, sub.ntime, sub.nonce,
          Some(ShareContext(Some(0), Some(""), None, None)))
  }

  lemma BareShareWins(h: Hasher, difficulty: u32, r: Registry, job: Job, sub: Submission, user: string)
    requires Bare(sub, user, job) && Lookup(r, job.jobId) == Some(job) && Solves(h, job, BareShare(sub), [])
    ensures Processed(r, Some(AzcoinValidator(h)), difficulty, BareShare(sub)) == ShareResult.Block
  {
    assert SessionExtranonce(BareShare(sub)) == Some([]);
    ProcessedCases(h, r, difficulty, BareShare(sub));
  }

  /** The session is authorized and waits for nothing. */
  predicate Authorized(w: World, i: nat, user: string, job: Job) {
    Idle(w, i) && w.peers[i].conn.state == SessionState(Some(user), false, "", 0, None, Some(job.jobId))
  }

  /** Both sessions are authorized and were sent the job. */
  predicate BothAuthorized(w: World, user: string, other: string, job: Job) {
    && |w.peers| == 2 && Authorized(w, 0, user, job) && Authorized(w, 1, other, job)
    && Lookup(w.shared.registry, job.jobId) == Some(job)
    && w.past.credits == [] && w.past.issued == []
  }

  lemma OneAuthorizes(s: Settings, w: World, i: nat, user: string, job: Job)
    requires Idle(w, i) && w.peers[i].conn == NEW_CONN
    ensures var next := Step(s, w, Request(i, Authorize(user), Some(job), OK));
            && |next.peers| == |w.peers| && (forall k :: 0 <= k < |w.peers| && k != i ==> next.peers[k] == w.peers[k])
            && Authorized(next, i, user, job) && next.shared.registry == Registered(w.shared.registry, job)
            && next.past.credits == w.past.credits && next.past.issued == w.past.issued
  {
  }

  lemma AuthorizingWorks(s: Settings, user: string, other: string, job: Job) returns (w: World)
    ensures BothAuthorized(w, user, other, job)
    ensures w == Run(s, START_WORLD, TWO + [Request(0, Authorize(user), Some(job), OK)]
                                     + [Request(1, Authorize(other), Some(job), OK)])
  {
    var e, f := Request(0, Authorize(user), Some(job), OK), Request(1, Authorize(other), Some(job), OK);
    TwoSteps(s, START_WORLD, Connect, Connect);
    var connected := Run(s, START_WORLD, TWO);
    assert Fresh(connected, 2);
    OneAuthorizes(s, connected, 0, user, job);
    OneMore(s, TWO, e);
    var first := Step(s, connected, e);
    OneAuthorizes(s, first, 1, other, job);
    OneMore(s, TWO + [e], f);
    RegistersFirst(job);
    w := Step(s, first, f);
  }

  /** Both credits are there, and no extranonce was issued. */
  predicate BothCredited(w: World, job: Job, a: Submission, b: Submission) {
    && w.past.issued == []
    && w.past.credits == [Credit(0, BareShare(a), Some(job), ShareResult.Block),
                          Credit(1, BareShare(b), Some(job), ShareResult.Block)]
  }

  lemma BothSubmit(s: Settings, w: World, user: string, other: string, job: Job, a: Submission, b: Submission)
    requires BothAuthorized(w, user, other, job) && Bare(a, user, job) && Bare(b, other, job)
    requires s.judge(w.shared.registry, BareShare(a)) == ShareResult.Block
    requires s.judge(w.shared.registry, BareShare(b)) == ShareResult.Block
    ensures BothCredited(Step(s, Step(s, w, Request(0, Submit(a), None, OK)), Request(1, Submit(b), None, OK)), job,
                         a, b)
  {
    assert Gate(w.peers[0].conn.state, a) == Ok(BareShare(a)) && Gate(w.peers[1].conn.state, b) == Ok(BareShare(b));
    SubmitDecides(s, w, 0, a, BareShare(a), job, OK);
    var next := Step(s, w, Request(0, Submit(a), None, OK));
    SubmitDecides(s, next, 1, b, BareShare(b), job, OK);
  }

  /** They do the same work: one header, from one coinbase, so that there is no pair to collide. */
  predicate SameWorkTwice(h: Hasher, job: Job, x: Share, y: Share) {
    && OneHeader(h, job, x, job, y) && !Apart(x, y)
    && MinerCoinbase(job, SessionExtranonce(x).value, x.extraNonce2)
       == MinerCoinbase(job, SessionExtranonce(y).value, y.extraNonce2)
  }

  lemma BareSharesAgree(h: Hasher, job: Job, a: Submission, b: Submission, user: string, other: string)
    requires Bare(a, user, job) && Bare(b, other, job) && a.ntime == b.ntime && a.nonce == b.nonce
    ensures Solves(h, job, BareShare(a), []) <==> Solves(h, job, BareShare(b), [])
    ensures SameWorkTwice(h, job, BareShare(a), BareShare(b))
  {
    assert SessionExtranonce(BareShare(a)) == Some([]) && SessionExtranonce(BareShare(b)) == Some([]);
    assert ResolvedVersion(job.version, BareShare(a)) == ResolvedVersion(job.version, BareShare(b)) == Ok(job.version);
  }

  /**
   For every job and every hash: two sessions that did not subscribe are both credited with a
   block for one and the same header, and it takes no collision.
   */
  lemma UnsubscribedSessionsOverlap(h: Hasher, initialDifficulty: u32, poolDifficulty: u32, job: Job,
                                    user: string, other: string, a: Submission, b: Submission)
    requires Bare(a, user, job) && Bare(b, other, job) && a.ntime == b.ntime && a.nonce == b.nonce
    requires Solves(h, job, BareShare(a), [])
    ensures BothCredited(Run(Azcoin(h, initialDifficulty, poolDifficulty), START_WORLD,
                             UnsubscribedRun(user, other, job, a, b)), job, a, b)
    ensures SameWorkTwice(h, job, BareShare(a), BareShare(b))
  {
    var s, e, f := Azcoin(h, initialDifficulty, poolDifficulty), Request(0, Submit(a), None, OK),
                   Request(1, Submit(b), None, OK);
    var start := TWO + [Request(0, Authorize(user), Some(job), OK)] + [Request(1, Authorize(other), Some(job), OK)];
    var w := AuthorizingWorks(s, user, other, job);
    BareSharesAgree(h, job, a, b, user, other);
    BareShareWins(h, poolDifficulty, w.shared.registry, job, a, user);
    BareShareWins(h, poolDifficulty, w.shared.registry, job, b, other);
    BothSubmit(s, w, user, other, job, a, b);
    OneMore(s, start, e);
    OneMore(s, start + [e], f);
  }

  /** A template's job and a hash for which it happens. */
  lemma UnsubscribedOverlapHappens(initialDifficulty: u32, poolDifficulty: u32, height: u64, prevHash: bytes,
                                   bits: bytes, payout: bytes, user: string, other: string, ntime: u32, nonce: u32)
    returns (h: Hasher, job: Job, a: Submission, b: Submission)
    requires Plain(height, prevHash, bits, [], payout)
    ensures IsTemplateJob(payout, job)
    ensures BothCredited(Run(Azcoin(h, initialDifficulty, poolDifficulty), START_WORLD,
                             UnsubscribedRun(user, other, job, a, b)), job, a, b)
    ensures SameWorkTwice(h, job, BareShare(a), BareShare(b))
  {
    h, job, a, b := BareWork(height, prevHash, bits, payout, user, other, ntime, nonce);
    UnsubscribedSessionsOverlap(h, initialDifficulty, poolDifficulty, job, user, other, a, b);
  }

  lemma BareWork(height: u64, prevHash: bytes, bits: bytes, payout: bytes, user: string, other: string, ntime: u32,
                 nonce: u32)
    returns (h: Hasher, job: Job, a: Submission, b: Submission)
    requires Plain(height, prevHash, bits, [], payout)
    ensures IsTemplateJob(payout, job) && Bare(a, user, job) && Bare(b, other, job)
    ensures a.ntime == b.ntime == ntime && a.nonce == b.nonce == nonce && Solves(h, job, BareShare(a), [])
  {
    var t;
    t, job := OneJob(height, prevHash, bits, payout);
    a := Submission(user, job.jobId, [], ntime, nonce, None);
    b := Submission(other, job.jobId, [], ntime, nonce, None);
    h := SolvingHash(job, BareShare(a));
  }

  lemma SolvingHash(job: Job, share: Share) returns (h: Hasher)
    requires ResolvedVersion(job.version, share).Ok?
    ensures Solves(h, job, share, [])
  {
    var low := DigestOf(0);
    h := (x: bytes) => low;
  }
}
