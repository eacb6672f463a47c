/** One miner's whole path, from connecting to a submitted block. */
module FullSession {
  import opened Bytes
  import opened Wrappers
  import opened Hex
  import opened CoinbaseSplit
  import opened Jobs
  import opened TemplateMapper
  import opened ShareValidator
  import opened RawBlock
  import opened ShareProcessor
  import opened JobRegistry
  import opened DomainMapper
  import opened Session
  import opened SessionRules
  import opened Pool
  import opened PoolRules
  import opened PoolRuns
  import opened EndToEnd
  import opened SameWork
  import opened PlainTemplates

  const OK: Writes := Writes(true, true, true)

  const FIRST_EXTRANONCE: string := HexU32(1)

  /** The first of these connections subscribes, authorizes and is sent the job. */
  function Joining(connects: seq<Event>, user: string, job: Job): seq<Event> {
    connects + [Request(0, Subscribe, None, OK), Request(0, Authorize(user), Some(job), OK)]
  }

  const ALONE: seq<Event> := [Connect]

  const TWO: seq<Event> := [Connect, Connect]

  /** The session was sent this job and no other. */
  predicate SentOnly(out: seq<Message>, job: Job) {
    LastJob(out) == Some(job) && forall k :: 0 <= k < |out| && out[k].MiningNotify? ==> out[k].job == job
  }

  lemma BringConcat(from: Origin, a: seq<Event>, b: seq<Event>)
    requires AllBring(from, a) && AllBring(from, b)
    ensures AllBring(from, a + b)
  {
  }

  /** Joining and submitting bring in only the one job. */
  lemma JoiningBrings(from: Origin, connects: seq<Event>, user: string, job: Job, sub: Submission)
    requires from(job) && (connects == ALONE || connects == TWO)
    ensures AllBring(from, Joining(connects, user, job) + [Request(0, Submit(sub), None, OK)])
  {
    var rest := [Request(0, Subscribe, None, OK), Request(0, Authorize(user), Some(job), OK)];
    BringConcat(from, connects, rest);
    BringConcat(from, connects + rest, [Request(0, Submit(sub), None, OK)]);
  }

  lemma AnotherBrings(from: Origin, events: seq<Event>, i: nat, user: string, job: Job)
    requires from(job) && AllBring(from, events)
    ensures AllBring(from, events + [Request(i, Authorize(user), Some(job), OK)])
  {
    BringConcat(from, events, [Request(i, Authorize(user), Some(job), OK)]);
  }

  /** What the pool looks like afterwards. */
  predicate Joined(w: World, user: string, job: Job) {
    && Idle(w, 0)
    && w.peers[0].conn.state == SessionState(Some(user), true, FIRST_EXTRANONCE, 4, None, Some(job.jobId))
    && SentOnly(w.peers[0].conn.written, job)
    && Lookup(w.shared.registry, job.jobId) == Some(job)
    && w.past.sent == [] && w.past.credits == [] && w.past.registered == [job]
  }

  lemma RegistersFirst(job: Job)
    ensures Registered(EMPTY_REGISTRY, job) == Registry(map[job.jobId := job], [job.jobId])
  {
    assert [] + [job.jobId] == [job.jobId];
  }

  /** Fresh connections, nothing else. */
  predicate Fresh(w: World, n: nat) {
    w == START_WORLD.(peers := w.peers) && |w.peers| == n && forall i :: 0 <= i < n ==> w.peers[i].conn == NEW_CONN
  }

  lemma JoinSteps(s: Settings, w: World, n: nat, user: string, job: Job)
    requires Fresh(w, n) && n > 0
    ensures var joined := Run(s, w, [Request(0, Subscribe, None, OK), Request(0, Authorize(user), Some(job), OK)]);
            && Joined(joined, user, job) && |joined.peers| == n
            && forall i :: 0 < i < n ==> joined.peers[i].conn == NEW_CONN
  {
    var e, f := Request(0, Subscribe, None, OK), Request(0, Authorize(user), Some(job), OK);
    TwoSteps(s, w, e, f);
    var subscribed := Step(s, w, e);
    assert subscribed.peers[0].conn.state == SessionState(None, true, FIRST_EXTRANONCE, 4, None, None);
    RegistersFirst(job);
    var joined := Step(s, subscribed, f);
    var out := joined.peers[0].conn.written;
    assert out[|out| - 1] == MiningNotify(job);
    assert [] + [job] == [job];
  }

  lemma JoiningWorks(s: Settings, n: nat, connects: seq<Event>, user: string, job: Job)
    requires (n == 1 && connects == ALONE) || (n == 2 && connects == TWO)
    ensures var joined := Run(s, START_WORLD, Joining(connects, user, job));
            && Joined(joined, user, job) && |joined.peers| == n
            && forall i :: 0 < i < n ==> joined.peers[i].conn == NEW_CONN
  {
    var rest := [Request(0, Subscribe, None, OK), Request(0, Authorize(user), Some(job), OK)];
    var w := Run(s, START_WORLD, connects);
    if n == 1 {
      assert w == Run(s, Step(s, START_WORLD, Connect), []);
    } else {
      TwoSteps(s, START_WORLD, Connect, Connect);
    }
    JoinSteps(s, w, n, user, job);
    RunSplit(s, START_WORLD, connects, rest);
  }

  /** The share the session makes of a submission without version bits. */
  function FirstShare(sub: Submission): Share {
    Share(sub.jobId, sub.username, sub.extraNonce2, sub.ntime, sub.nonce,
          Some(ShareContext(Some(4), Some(FIRST_EXTRANONCE), None, None)))
  }

  /** The submission is the miner's own, for its job, with 4 bytes of extranonce2 and no version bits. */
  predicate Proper(sub: Submission, user: string, job: Job) {
    sub.username == user && sub.jobId == job.jobId && |sub.extraNonce2| == 4 && sub.versionBits == None
  }

  lemma WinningShare(h: Hasher, difficulty: u32, r: Registry, job: Job, sub: Submission, user: string)
    requires Proper(sub, user, job) && Lookup(r, job.jobId) == Some(job)
    requires Solves(h, job, FirstShare(sub), BeBytes(1, 4))
    ensures Processed(r, Some(AzcoinValidator(h)), difficulty, FirstShare(sub)) == ShareResult.Block
  {
    HexU32Decodes(1);
    assert SessionExtranonce(FirstShare(sub)) == Some(BeBytes(1, 4));
    ProcessedCases(h, r, difficulty, FirstShare(sub));
  }

  /** Submitting a share that is judged a block on the entry leaves the session deciding on it. */
  lemma SubmitDecides(s: Settings, w: World, i: nat, sub: Submission, share: Share, entry: Job, writes: Writes)
    requires Idle(w, i) && Gate(w.peers[i].conn.state, sub) == Ok(share)
    requires Lookup(w.shared.registry, share.jobId) == Some(entry)
    requires s.judge(w.shared.registry, share) == ShareResult.Block
    ensures var next := Step(s, w, Request(i, Submit(sub), None, writes));
            && Deciding(next, i) && next.peers[i].conn.pending.value == Pending(share, entry)
            && next.shared.registry == w.shared.registry && next.past.registered == w.past.registered
            && next.past.sent == w.past.sent && next.past.issued == w.past.issued
            && next.past.credits == w.past.credits + [Credit(i, share, Some(entry), ShareResult.Block)]
            && |next.peers| == |w.peers| && next.peers[i].conn.written == w.peers[i].conn.written
            && (forall k :: 0 <= k < |w.peers| && k != i ==> next.peers[k] == w.peers[k])
  {
  }

  lemma FirstShareCarries(sub: Submission)
    ensures SessionExtranonce(FirstShare(sub)) == Some(BeBytes(1, 4))
  {
    HexU32Decodes(1);
  }

  lemma CleanCoinbaseParses(t: BlockTemplate, payout: bytes, job: Job, e1: bytes, e2: bytes)
    requires MadeFrom(t, payout, job) && SplitsCleanly(CoinbaseOf(t, payout)) && |e1| + |e2| == 8
    ensures ValidTx(MinerCoinbase(job, e1, e2))
  {
    TemplateCoinbase(t, payout, job, e1, e2);
  }

  lemma ReadyIsSubmittable(t: BlockTemplate, payout: bytes, r: Registry, entry: Job, sub: Submission)
    requires Ready(t, payout, entry) && Lookup(r, sub.jobId) == Some(entry) && |sub.extraNonce2| == 4
    ensures Submittable(r, FirstShare(sub), Some(entry))
  {
    FirstShareCarries(sub);
    CleanCoinbaseParses(t, payout, entry, BeBytes(1, 4), sub.extraNonce2);
  }

  /** Finishing on such an entry sends its block. */
  lemma FinishSendsEntry(h: Hasher, initialDifficulty: u32, poolDifficulty: u32, payout: bytes, w: World,
                         won: Pending, sub: Submission, t: BlockTemplate, entry: Job)
    requires PeersOk(Earned(h, poolDifficulty), w) && RegistryOk(FromTemplates(payout), w)
    requires Deciding(w, 0) && w.peers[0].conn.pending.value == won && won.share == FirstShare(sub)
    requires Ready(t, payout, entry) && Lookup(w.shared.registry, sub.jobId) == Some(entry) && |sub.extraNonce2| == 4
    ensures SendsBlock(h, payout, w.past.sent,
                       Step(Azcoin(h, initialDifficulty, poolDifficulty), w, Finish(0, Some(entry), OK)).past.sent,
                       won, entry)
  {
    ReadyIsSubmittable(t, payout, w.shared.registry, entry, sub);
    FoundBlockIsSubmitted(h, initialDifficulty, poolDifficulty, payout, w, 0, won, Some(entry), OK);
  }

  lemma ReachableSound(h: Hasher, initialDifficulty: u32, poolDifficulty: u32, payout: bytes, events: seq<Event>)
    requires AllBring(FromTemplates(payout), events)
    ensures var w := Run(Azcoin(h, initialDifficulty, poolDifficulty), START_WORLD, events);
            PeersOk(Earned(h, poolDifficulty), w) && RegistryOk(FromTemplates(payout), w)
  {
    AzcoinTrusted(h, initialDifficulty, poolDifficulty);
    ReachableOk(Azcoin(h, initialDifficulty, poolDifficulty), Earned(h, poolDifficulty), FromTemplates(payout), events);
  }

  /** A run that leaves the first session deciding on a share whose entry is ready sends one block when it finishes. */
  lemma RunSendsEntry(h: Hasher, initialDifficulty: u32, poolDifficulty: u32, payout: bytes, events: seq<Event>,
                      w: World, won: Pending, sub: Submission, t: BlockTemplate, entry: Job)
    requires AllBring(FromTemplates(payout), events)
    requires w == Run(Azcoin(h, initialDifficulty, poolDifficulty), START_WORLD, events) && w.past.sent == []
    requires Deciding(w, 0) && w.peers[0].conn.pending.value == won && won.share == FirstShare(sub)
    requires Ready(t, payout, entry) && Lookup(w.shared.registry, sub.jobId) == Some(entry) && |sub.extraNonce2| == 4
    ensures SendsBlock(h, payout, [],
                       Run(Azcoin(h, initialDifficulty, poolDifficulty), START_WORLD,
                           events + [Finish(0, Some(entry), OK)]).past.sent,
                       won, entry)
  {
    ReachableSound(h, initialDifficulty, poolDifficulty, payout, events);
    FinishSendsEntry(h, initialDifficulty, poolDifficulty, payout, w, won, sub, t, entry);
    OneMore(Azcoin(h, initialDifficulty, poolDifficulty), events, Finish(0, Some(entry), OK));
  }

  /** The miner joins alone, submits and the submit finishes. */
  function AloneRun(user: string, job: Job, sub: Submission): seq<Event> {
    Joining(ALONE, user, job) + [Request(0, Submit(sub), None, OK)] + [Finish(0, Some(job), OK)]
  }

  /**
   From an empty pool: a miner that connects, subscribes, is sent a template's job and submits a
   share whose header meets the target gets exactly one block submitted, with everything that is
   claimed of submitted blocks, provided the template splits cleanly and its transactions parse.
   */
  lemma MinerToBlock(h: Hasher, initialDifficulty: u32, poolDifficulty: u32, t: BlockTemplate, payout: bytes,
                     job: Job, user: string, sub: Submission)
    requires Ready(t, payout, job)
    requires Proper(sub, user, job) && Solves(h, job, FirstShare(sub), BeBytes(1, 4))
    ensures SendsBlock(h, payout, [],
                       Run(Azcoin(h, initialDifficulty, poolDifficulty), START_WORLD,
                           AloneRun(user, job, sub)).past.sent,
                       Pending(FirstShare(sub), job), job)
  {
    var events := Joining(ALONE, user, job) + [Request(0, Submit(sub), None, OK)];
    ReadyIsTemplate(t, payout, job);
    JoiningBrings(FromTemplates(payout), ALONE, user, job, sub);
    var w := SubmitsAfterJoining(h, initialDifficulty, poolDifficulty, 1, ALONE, user, job, sub);
    RunSendsEntry(h, initialDifficulty, poolDifficulty, payout, events, w, Pending(FirstShare(sub), job), sub, t, job);
  }

  lemma SubmitsAfterJoining(h: Hasher, initialDifficulty: u32, poolDifficulty: u32, n: nat, connects: seq<Event>,
                            user: string, job: Job, sub: Submission) returns (w: World)
    requires (n == 1 && connects == ALONE) || (n == 2 && connects == TWO)
    requires Proper(sub, user, job) && Solves(h, job, FirstShare(sub), BeBytes(1, 4))
    ensures w == Run(Azcoin(h, initialDifficulty, poolDifficulty), START_WORLD,
                     Joining(connects, user, job) + [Request(0, Submit(sub), None, OK)])
    ensures Deciding(w, 0) && w.peers[0].conn.pending.value == Pending(FirstShare(sub), job) && w.past.sent == []
    ensures Lookup(w.shared.registry, job.jobId) == Some(job)
    ensures |w.peers| == n && forall i :: 0 < i < n ==> w.peers[i].conn == NEW_CONN
  {
    var s := Azcoin(h, initialDifficulty, poolDifficulty);
    JoiningWorks(s, n, connects, user, job);
    var joined := Run(s, START_WORLD, Joining(connects, user, job));
    WinningShare(h, poolDifficulty, joined.shared.registry, job, sub, user);
    assert Gate(joined.peers[0].conn.state, sub) == Ok(FirstShare(sub));
    SubmitDecides(s, joined, 0, sub, FirstShare(sub), job, OK);
    OneMore(s, Joining(connects, user, job), Request(0, Submit(sub), None, OK));
    w := Step(s, joined, Request(0, Submit(sub), None, OK));
  }

  lemma OneMore(s: Settings, events: seq<Event>, e: Event)
    ensures Run(s, START_WORLD, events + [e]) == Step(s, Run(s, START_WORLD, events), e)
  {
    RunSplit(s, START_WORLD, events, [e]);
    var w := Run(s, START_WORLD, events);
    assert Run(s, w, [e]) == Run(s, Step(s, w, e), []);
  }

  // From any state

  /** The event is not session i finishing its submit. */
  predicate LeavesUndecided(e: Event, i: nat) {
    !(e.Finish? && e.i == i)
  }

  lemma {:induction false} SubmitWaits(s: Settings, w: World, events: seq<Event>, i: nat)
    requires Deciding(w, i) && forall k :: 0 <= k < |events| ==> LeavesUndecided(events[k], i)
    ensures Deciding(Run(s, w, events), i) && Run(s, w, events).peers[i] == w.peers[i]
    decreases |events|
  {
    if events != [] {
      OthersWait(s, w, events[0], i);
      SubmitWaits(s, Step(s, w, events[0]), events[1..], i);
    }
  }

  /** While a session waits nothing else that concerns it is possible. */
  lemma OthersWait(s: Settings, w: World, e: Event, i: nat)
    requires Deciding(w, i) && LeavesUndecided(e, i)
    ensures Deciding(Step(s, w, e), i) && Step(s, w, e).peers[i] == w.peers[i]
  {
    if Concerns(e, i) {
      assert Step(s, w, e) == w;
    } else {
      OthersLeave(s, w, e, i);
    }
  }

  /** Runs that registered the same jobs in the same order have the same registry. */
  lemma SameRegistry(h: Hasher, initialDifficulty: u32, poolDifficulty: u32, payout: bytes,
                     a: seq<Event>, b: seq<Event>)
    requires AllBring(FromTemplates(payout), a) && AllBring(FromTemplates(payout), b)
    requires var s := Azcoin(h, initialDifficulty, poolDifficulty);
             Run(s, START_WORLD, a).past.registered == Run(s, START_WORLD, b).past.registered
    ensures var s := Azcoin(h, initialDifficulty, poolDifficulty);
            Run(s, START_WORLD, a).shared.registry == Run(s, START_WORLD, b).shared.registry
  {
    RegistryIsLogged(h, initialDifficulty, poolDifficulty, payout, a);
    RegistryIsLogged(h, initialDifficulty, poolDifficulty, payout, b);
  }

  lemma RegistryIsLogged(h: Hasher, initialDifficulty: u32, poolDifficulty: u32, payout: bytes, events: seq<Event>)
    requires AllBring(FromTemplates(payout), events)
    ensures var w := Run(Azcoin(h, initialDifficulty, poolDifficulty), START_WORLD, events);
            w.shared.registry == RunRegistry(EMPTY_REGISTRY, w.past.registered)
  {
    AzcoinTrusted(h, initialDifficulty, poolDifficulty);
    ReachableOk(Azcoin(h, initialDifficulty, poolDifficulty), Earned(h, poolDifficulty), FromTemplates(payout), events);
  }

  /** One more block was sent, built from the job the share was judged against, and its hash meets that job's target. */
  ghost predicate SendsSolved(h: Hasher, payout: bytes, before: seq<SentBlock>, after: seq<SentBlock>, won: Pending) {
    exists b: SentBlock ::
      after == before + [b] && b.won == won && b.job == won.job && Sound(h, payout, b)
      && MeetsTarget(h, b.candidate.rawBlock, won.job)
  }

  lemma OwnBlockMeets(h: Hasher, payout: bytes, before: seq<SentBlock>, after: seq<SentBlock>, won: Pending)
    requires SendsBlock(h, payout, before, after, won, won.job)
    ensures SendsSolved(h, payout, before, after, won)
  {
    var b: SentBlock :| after == before + [b] && b.won == won && b.job == won.job && Sound(h, payout, b);
    assert SameHeader(b.won.job, b.job, b.won.share, SessionExtranonce(b.won.share).value);
  }

  /**
   In every run over template jobs: a session's share is judged a block, then anything happens
   except that the session finishes or that a job is registered, and then it finishes. Exactly
   one block is sent then, built from the job the share was judged against and meeting its
   target, if and only if that job was submittable when the share was judged and is current.
   */
  lemma FoundBlockSurvives(h: Hasher, initialDifficulty: u32, poolDifficulty: u32, payout: bytes, before: seq<Event>,
                           i: nat, sub: Submission, share: Share, writes: Writes, between: seq<Event>,
                           current: Option<Job>, last: Writes)
    requires AllBring(FromTemplates(payout), before) && AllBring(FromTemplates(payout), between)
    requires var w := Run(Azcoin(h, initialDifficulty, poolDifficulty), START_WORLD, before);
             && Idle(w, i) && Gate(w.peers[i].conn.state, sub) == Ok(share)
             && Judge(h, poolDifficulty)(w.shared.registry, share) == ShareResult.Block
    requires forall k :: 0 <= k < |between| ==> LeavesUndecided(between[k], i)
    requires var s := Azcoin(h, initialDifficulty, poolDifficulty);
             Run(s, START_WORLD, before + [Request(i, Submit(sub), None, writes)] + between).past.registered
             == Run(s, START_WORLD, before).past.registered
    ensures var s := Azcoin(h, initialDifficulty, poolDifficulty);
            var w := Run(s, START_WORLD, before);
            var waiting := Run(s, START_WORLD, before + [Request(i, Submit(sub), None, writes)] + between);
            var sent := Step(s, waiting, Finish(i, current, last)).past.sent;
            && Lookup(w.shared.registry, share.jobId).Some?
            && if Submittable(w.shared.registry, share, current) then
                 SendsSolved(h, payout, waiting.past.sent, sent,
                             Pending(share, Lookup(w.shared.registry, share.jobId).value))
               else sent == waiting.past.sent
  {
    var s, submit := Azcoin(h, initialDifficulty, poolDifficulty), Request(i, Submit(sub), None, writes);
    var w := Run(s, START_WORLD, before);
    var entry := JudgedEntry(h, poolDifficulty, w.shared.registry, share);
    SubmitDecides(s, w, i, sub, share, entry, writes);
    OneMore(s, before, submit);
    SubmitWaits(s, Step(s, w, submit), between, i);
    RunSplit(s, START_WORLD, before + [submit], between);
    SubmitBrings(FromTemplates(payout), before, i, sub, writes, between);
    SameRegistry(h, initialDifficulty, poolDifficulty, payout, before + [submit] + between, before);
    ReachableSound(h, initialDifficulty, poolDifficulty, payout, before + [submit] + between);
    var waiting := Run(s, START_WORLD, before + [submit] + between);
    FoundBlockIsSubmitted(h, initialDifficulty, poolDifficulty, payout, waiting, i, Pending(share, entry), current,
                          last);
    if Submittable(w.shared.registry, share, current) {
      OwnBlockMeets(h, payout, waiting.past.sent, Step(s, waiting, Finish(i, current, last)).past.sent,
                    Pending(share, entry));
    }
  }

  lemma JudgedEntry(h: Hasher, difficulty: u32, r: Registry, share: Share) returns (entry: Job)
    requires Judge(h, difficulty)(r, share) == ShareResult.Block
    ensures Lookup(r, share.jobId) == Some(entry)
  {
    BlockMeansSolved(h, r, difficulty, share);
    entry := Lookup(r, share.jobId).value;
  }

  lemma SubmitBrings(from: Origin, before: seq<Event>, i: nat, sub: Submission, writes: Writes, between: seq<Event>)
    requires AllBring(from, before) && AllBring(from, between)
    ensures AllBring(from, before + [Request(i, Submit(sub), None, writes)] + between)
  {
    BringConcat(from, before, [Request(i, Submit(sub), None, writes)]);
    BringConcat(from, before + [Request(i, Submit(sub), None, writes)], between);
  }
}
