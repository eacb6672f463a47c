/** What holds in every run of the pool, whatever the interleaving, the failures and the polls. */
module PoolRuns {
  import opened Bytes
  import opened Wrappers
  import opened Hex
  import opened Sequences
  import opened Jobs
  import opened JobRegistry
  import opened ShareLog
  import opened DomainMapper
  import opened Session
  import opened SessionRules
  import opened Broadcast
  import opened Poller
  import opened Pool
  import opened PoolRules

  ghost predicate Inv(s: Settings, worth: Worth, from: Origin, w: World) {
    && PeersOk(worth, w) && RingOk(w) && BroadcastsFrom(from, w) && RegistryOk(from, w)
    && AuthorizedOk(w) && CreditsOk(worth, from, w) && AllSentOk(s, worth, from, w)
    && BufferOk(w) && LedgerOk(w) && TextsOk(w) && Logged(s.difficulty, from, w)
  }

  ghost predicate AllBring(from: Origin, events: seq<Event>) {
    forall k :: 0 <= k < |events| ==> Brings(from, events[k])
  }

  lemma StepKeeps(s: Settings, worth: Worth, from: Origin, w: World, e: Event)
    requires Trusted(s, worth) && Brings(from, e) && Inv(s, worth, from, w)
    ensures Inv(s, worth, from, Step(s, w, e))
  {
    StepGrows(s, worth, from, w, e);
    PeersStep(s, worth, from, w, e);
    RingStep(s, worth, from, w, e);
    RegistryStep(s, worth, from, w, e);
    AuthorizedStep(s, w, e);
    CreditsStep(s, worth, from, w, e);
    SentStep(s, worth, from, w, e);
    BufferStep(s, w, e);
    LedgerStep(s, w, e);
    TextsStep(s, worth, w, e);
    LoggedStep(s, from, w, e);
  }

  lemma {:induction false} RunKeeps(s: Settings, worth: Worth, from: Origin, w: World, events: seq<Event>)
    requires Trusted(s, worth) && AllBring(from, events) && Inv(s, worth, from, w)
    ensures Inv(s, worth, from, Run(s, w, events))
    decreases |events|
  {
    if events != [] {
      StepKeeps(s, worth, from, w, events[0]);
      RunKeeps(s, worth, from, Step(s, w, events[0]), events[1..]);
    }
  }

  /** Every reachable state satisfies every rule. */
  lemma ReachableOk(s: Settings, worth: Worth, from: Origin, events: seq<Event>)
    requires Trusted(s, worth) && AllBring(from, events)
    ensures Inv(s, worth, from, Run(s, START_WORLD, events))
  {
    RunKeeps(s, worth, from, START_WORLD, events);
  }

  // Credit

  /**
   The registry holds only jobs whose difficulty and then job lines were written to some
   session, and every credited share is worth it, for such a job, from a session authorized
   under the share's own name.
   */
  lemma NoCreditForUnissuedWork(s: Settings, worth: Worth, from: Origin, events: seq<Event>)
    requires Trusted(s, worth) && AllBring(from, events)
    ensures var w := Run(s, START_WORLD, events);
            && Consistent(w.shared.registry)
            && (forall id :: id in w.shared.registry.byId ==> Known(from, w.peers, w.shared.registry.byId[id]))
            && (forall c :: c in w.past.credits ==> CreditOk(worth, from, w, c))
  {
    ReachableOk(s, worth, from, events);
  }

  lemma {:induction false} BufferOfRun(s: Settings, w: World, events: seq<Event>)
    requires BufferOk(w)
    ensures BufferOk(Run(s, w, events))
    decreases |events|
  {
    if events != [] {
      BufferStep(s, w, events[0]);
      BufferOfRun(s, Step(s, w, events[0]), events[1..]);
    }
  }

  /** Under every judge the buffer is the last 100 of all processed shares, in order. */
  lemma BufferOverRuns(s: Settings, events: seq<Event>)
    ensures var w := Run(s, START_WORLD, events);
            w.shared.buffer == LastN(w.past.attempts, 100)
  {
    BufferOfRun(s, START_WORLD, events);
  }

  // Extranonces

  /** Two subscribes get the same extranonce1 exactly when the wrapped counter had the same value. */
  lemma ExtranonceRepeats(j: nat, k: nat)
    ensures Extranonce(j) == Extranonce(k) <==> (1 + j) % 0x1_0000_0000 == (1 + k) % 0x1_0000_0000
  {
    if Extranonce(j) == Extranonce(k) {
      HexU32Injective((1 + j) % 0x1_0000_0000, (1 + k) % 0x1_0000_0000);
    }
  }

  lemma SmallResidues(j: nat, k: nat)
    requires j < k < 0x1_0000_0000
    ensures (1 + j) % 0x1_0000_0000 != (1 + k) % 0x1_0000_0000
  {
  }

  lemma EarlyExtranoncesDiffer(j: nat, k: nat)
    requires j < k < 0x1_0000_0000
    ensures Extranonce(j) != Extranonce(k)
  {
    SmallResidues(j, k);
    ExtranonceRepeats(j, k);
  }

  /**
   In every reachable state each session has eight hex digits and 4 bytes, or nothing, according
   to whether it subscribed; and while at most 2^32 subscribes were made, whatever the
   interleaving, no two of them got the same extranonce1 and no two sessions hold the same one.
   */
  lemma ExtranoncesOverRuns(s: Settings, worth: Worth, from: Origin, events: seq<Event>)
    requires Trusted(s, worth) && AllBring(from, events)
    ensures var w := Run(s, START_WORLD, events);
            && (forall i :: 0 <= i < |w.peers| ==> ExtranonceSet(w.peers[i].conn.state))
            && (|w.past.issued| <= 0x1_0000_0000 ==>
                  && (forall j, k :: 0 <= j < k < |w.past.issued| ==> w.past.issued[j].1 != w.past.issued[k].1)
                  && (forall i, j :: 0 <= i < j < |w.peers| ==> !ShareExtranonce(w.peers[i].conn, w.peers[j].conn)))
  {
    ReachableOk(s, worth, from, events);
    var w := Run(s, START_WORLD, events);
    forall i | 0 <= i < |w.peers| ensures ExtranonceSet(w.peers[i].conn.state) {
      assert PeerOk(worth, w.peers[i], |w.past.broadcasts|);
    }
    if |w.past.issued| <= 0x1_0000_0000 {
      IssuedDiffer(w.past.issued);
      HoldersDiffer(w.past.issued, w.peers);
    }
  }

  predicate ShareExtranonce(c: Conn, d: Conn) {
    c.state.subscribed && d.state.subscribed && c.state.extranonce1 == d.state.extranonce1
  }

  lemma IssuedDiffer(issued: seq<(nat, string)>)
    requires InOrder(issued) && |issued| <= 0x1_0000_0000
    ensures forall j, k :: 0 <= j < k < |issued| ==> issued[j].1 != issued[k].1
  {
    forall j, k | 0 <= j < k < |issued| ensures issued[j].1 != issued[k].1 {
      EarlyExtranoncesDiffer(j, k);
    }
  }

  /** Two issues to different sessions are two different issues. */
  lemma OwnersDiffer(issued: seq<(nat, string)>, a: (nat, string), b: (nat, string))
    requires InOrder(issued) && |issued| <= 0x1_0000_0000 && a in issued && b in issued && a.0 != b.0
    ensures a.1 != b.1
  {
    var j :| 0 <= j < |issued| && issued[j] == a;
    var k :| 0 <= k < |issued| && issued[k] == b;
    if j < k {
      EarlyExtranoncesDiffer(j, k);
    } else {
      EarlyExtranoncesDiffer(k, j);
    }
  }

  lemma HoldersDiffer(issued: seq<(nat, string)>, peers: seq<Peer>)
    requires InOrder(issued) && |issued| <= 0x1_0000_0000 && HeldByOwner(issued, peers)
    ensures forall i, j :: 0 <= i < j < |peers| ==> !ShareExtranonce(peers[i].conn, peers[j].conn)
  {
    forall i, j | 0 <= i < j < |peers| ensures !ShareExtranonce(peers[i].conn, peers[j].conn) {
      if peers[i].conn.state.subscribed && peers[j].conn.state.subscribed {
        OwnersDiffer(issued, (i, peers[i].conn.state.extranonce1), (j, peers[j].conn.state.extranonce1));
      }
    }
  }

  // Broadcasts

  function PollsOf(events: seq<Event>): seq<Option<Job>>
    decreases |events|
  {
    if events == [] then []
    else (match events[0] case Poll(found) => [found] case _ => []) + PollsOf(events[1..])
  }

  /** What an event has polled, when it is a poll. */
  function Found(e: Event): Option<Job> {
    match e
    case Poll(found) => found
    case _ => None
  }

  function Sends(last: Key, found: Option<Job>): seq<Job> {
    if Polled(last, found).1.Some? then [Polled(last, found).1.value] else []
  }

  lemma OnlyPollsBroadcast(s: Settings, w: World, e: Event)
    ensures var next := Step(s, w, e);
            && next.polled == Polled(w.polled, Found(e)).0
            && next.past.broadcasts == w.past.broadcasts + Sends(w.polled, Found(e))
            && (!e.Poll? ==> next.ring == w.ring)
  {
    assert w.past.broadcasts + [] == w.past.broadcasts;
  }

  lemma {:induction false} BroadcastsOfRun(s: Settings, w: World, events: seq<Event>)
    ensures Run(s, w, events).past.broadcasts == w.past.broadcasts + RunPolls(w.polled, PollsOf(events))
    decreases |events|
  {
    if events == [] {
      assert w.past.broadcasts + [] == w.past.broadcasts;
    } else {
      var next := Step(s, w, events[0]);
      var last := Polled(w.polled, Found(events[0])).0;
      OnlyPollsBroadcast(s, w, events[0]);
      BroadcastsOfRun(s, next, events[1..]);
      PollsCons(w.polled, events);
      Regroup(w.past.broadcasts, Sends(w.polled, Found(events[0])), RunPolls(last, PollsOf(events[1..])),
              next.past.broadcasts);
    }
  }

  lemma Regroup<T>(a: seq<T>, b: seq<T>, c: seq<T>, ab: seq<T>)
    requires ab == a + b
    ensures ab + c == a + (b + c)
  {
  }

  lemma PollsCons(last: Key, events: seq<Event>)
    requires events != []
    ensures RunPolls(last, PollsOf(events))
         == Sends(last, Found(events[0])) + RunPolls(Polled(last, Found(events[0])).0, PollsOf(events[1..]))
  {
    if events[0].Poll? {
      assert PollsOf(events) == [events[0].found] + PollsOf(events[1..]);
      assert PollsOf(events)[1..] == PollsOf(events[1..]);
    } else {
      assert PollsOf(events) == PollsOf(events[1..]);
      assert [] + RunPolls(last, PollsOf(events)) == RunPolls(last, PollsOf(events));
    }
  }

  /** Whatever the sessions do, the jobs broadcast are the successful polls without adjacent repeats. */
  lemma BroadcastsAreDestuttered(s: Settings, events: seq<Event>)
    ensures Run(s, START_WORLD, events).past.broadcasts == Destutter(START, Successes(PollsOf(events)))
  {
    BroadcastsOfRun(s, START_WORLD, events);
    PollerDestutters(START, PollsOf(events));
    assert [] + RunPolls(START, PollsOf(events)) == RunPolls(START, PollsOf(events));
  }

  // Job distribution

  /** The event is a step of session i. */
  predicate Concerns(e: Event, i: nat) {
    match e
    case Request(k, _, _, _) => k == i
    case BadLine(k, _, _) => k == i
    case Finish(k, _, _) => k == i
    case Listen(k, _) => k == i
    case Hangup(k) => k == i
    case _ => false
  }

  lemma OthersLeave(s: Settings, w: World, e: Event, i: nat)
    requires i < |w.peers| && !Concerns(e, i)
    ensures i < |Step(s, w, e).peers| && Step(s, w, e).peers[i] == w.peers[i]
  {
  }

  /** A live authorized session, free to receive. */
  predicate Following(w: World, i: nat) {
    Idle(w, i) && w.peers[i].conn.state.authorizedWorker.Some?
  }

  /** It has received everything and its last notified id is the newest job's. */
  predicate CaughtUp(w: World, i: nat) {
    && Following(w, i) && w.past.broadcasts != []
    && w.peers[i].cursor == |w.past.broadcasts|
    && w.peers[i].conn.state.lastNotifyJobId == Some(w.past.broadcasts[|w.past.broadcasts| - 1].jobId)
  }

  function OwedTo(w: World, i: nat): nat {
    if CanListen(w, i) then Owed(w.ring, w.peers[i].cursor) else 0
  }

  /** A new session owes nothing to the past: it waits for the next broadcast job. */
  lemma NewSessionIsOwedNothing(s: Settings, w: World)
    requires RingOk(w)
    ensures var next := Step(s, w, Connect);
            && next == w.(peers := next.peers) && |next.peers| == |w.peers| + 1 && next.peers[..|w.peers|] == w.peers
            && next.peers[|w.peers|].conn == NEW_CONN && OwedTo(next, |w.peers|) == 0
            && next.peers[|w.peers|].cursor == |w.past.broadcasts|
  {
  }

  /** During the drain there is no poll, and session i only receives, with its writes succeeding. */
  predicate Draining(e: Event, i: nat) {
    !e.Poll? && (Concerns(e, i) ==> e.Listen? && e.writes.difficulty && e.writes.notify)
  }

  function Receives(events: seq<Event>, i: nat): nat
    decreases |events|
  {
    if events == [] then 0 else (if Concerns(events[0], i) then 1 else 0) + Receives(events[1..], i)
  }

  lemma ReceiveStep(s: Settings, worth: Worth, w: World, e: Event, i: nat)
    requires PeersOk(worth, w) && RingOk(w) && Following(w, i) && Concerns(e, i) && Draining(e, i)
    ensures var next := Step(s, w, e);
            && Following(next, i) && CanListen(w, i) && next.past.broadcasts == w.past.broadcasts
            && next.peers[i].cursor <= |next.past.broadcasts|
            && (OwedTo(w, i) > 0 ==> OwedTo(next, i) == OwedTo(w, i) - 1)
            && (OwedTo(w, i) == 1 || CaughtUp(w, i) ==> CaughtUp(next, i))
  {
    assert PeerOk(worth, w.peers[i], |w.past.broadcasts|);
    var cursor := w.peers[i].cursor;
    ReceiveOwesLess(w.past.broadcasts, cursor);
    ReceiveReadsHistory(w.past.broadcasts, cursor);
    if Heard(w, i).Some? {
      JobPushed(s, w.shared, w.peers[i].conn, Heard(w, i).value, e.writes);
    }
  }

  /** With successful writes a broadcast job leaves an authorized session alive with that id as its last. */
  lemma JobPushed(s: Settings, sh: Shared, c: Conn, job: Job, writes: Writes)
    requires c.alive && c.pending.None? && c.state.authorizedWorker.Some? && writes.difficulty && writes.notify
    ensures var c1 := OnJob(s, sh, c, job, writes).1;
            && c1.alive && c1.pending.None? && c1.state == c.state.(lastNotifyJobId := Some(job.jobId))
  {
  }

  /**
   With the feed quiet, a live authorized session that receives as often as it is owed, at
   most 17 times, ends with the newest job, however the other sessions' steps are interleaved.
   */
  lemma {:induction false} DrainReachesNewest(s: Settings, worth: Worth, from: Origin, w: World,
                                              events: seq<Event>, i: nat)
    requires Trusted(s, worth) && AllBring(from, events) && Inv(s, worth, from, w)
    requires Following(w, i) && forall k :: 0 <= k < |events| ==> Draining(events[k], i)
    requires Receives(events, i) >= OwedTo(w, i)
    requires OwedTo(w, i) > 0 || CaughtUp(w, i)
    ensures OwedTo(w, i) <= 17
    ensures Run(s, w, events).past.broadcasts == w.past.broadcasts
    ensures CaughtUp(Run(s, w, events), i)
    decreases |events|
  {
    assert PeerOk(worth, w.peers[i], |w.past.broadcasts|);
    ReceiveOwesLess(w.past.broadcasts, w.peers[i].cursor);
    if events != [] {
      var e, next := events[0], Step(s, w, events[0]);
      StepKeeps(s, worth, from, w, e);
      OnlyPollsBroadcast(s, w, e);
      if Concerns(e, i) {
        ReceiveStep(s, worth, w, e, i);
      } else {
        OthersLeave(s, w, e, i);
      }
      DrainReachesNewest(s, worth, from, next, events[1..], i);
    }
  }

  /** The event is neither a receive nor an authorize of session i. */
  predicate Quiet(e: Event, i: nat) {
    Concerns(e, i) ==> !e.Listen? && !(e.Request? && e.cmd.Authorize?)
  }

  lemma QuietKeepsId(s: Settings, w: World, e: Event, i: nat)
    requires i < |w.peers| && Quiet(e, i)
    ensures i < |Step(s, w, e).peers|
    ensures Step(s, w, e).peers[i].conn.state.lastNotifyJobId == w.peers[i].conn.state.lastNotifyJobId
  {
    if Concerns(e, i) && e.Request? && Idle(w, i) {
      CommandKeepsId(s, w.shared, w.peers[i].conn, e.cmd, e.current, e.writes);
    }
  }

  lemma CommandKeepsId(s: Settings, sh: Shared, c: Conn, cmd: Command, current: Option<Job>, writes: Writes)
    requires !cmd.Authorize?
    ensures OnCommand(s, sh, c, cmd, current, writes).1.state.lastNotifyJobId == c.state.lastNotifyJobId
  {
  }

  lemma {:induction false} IdStays(s: Settings, w: World, events: seq<Event>, i: nat)
    requires i < |w.peers| && forall k :: 0 <= k < |events| ==> Quiet(events[k], i)
    ensures i < |Run(s, w, events).peers|
    ensures Run(s, w, events).peers[i].conn.state.lastNotifyJobId == w.peers[i].conn.state.lastNotifyJobId
    decreases |events|
  {
    if events != [] {
      QuietKeepsId(s, w, events[0], i);
      IdStays(s, Step(s, w, events[0]), events[1..], i);
    }
  }

  /** Session i handles the job: an authorized session receives it, or an authorize is answered with it. */
  predicate Handles(w: World, i: nat, e: Event, job: Job) {
    && Idle(w, i) && Concerns(e, i)
    && (|| (e.Listen? && Following(w, i) && CanListen(w, i) && Heard(w, i) == Some(job))
        || (e.Request? && e.cmd.Authorize? && e.current == Some(job)))
  }

  /**
   Once a session has handled a job and is still alive, the job's id is its last notified id
   until its next receive or authorize, whatever else happens.
   */
  lemma HandledIdStays(s: Settings, worth: Worth, w: World, i: nat, e: Event, job: Job, events: seq<Event>)
    requires PeersOk(worth, w) && Handles(w, i, e, job) && Idle(Step(s, w, e), i)
    requires forall k :: 0 <= k < |events| ==> Quiet(events[k], i)
    ensures i < |Run(s, Step(s, w, e), events).peers|
    ensures Run(s, Step(s, w, e), events).peers[i].conn.state.lastNotifyJobId == Some(job.jobId)
  {
    assert PeerOk(worth, w.peers[i], |w.past.broadcasts|);
    if e.Listen? {
      JobKeeps(s, w.shared, w.peers[i].conn, job, e.writes);
    } else {
      AuthorizeRemembers(s, w.shared, w.peers[i].conn, e.cmd, job, e.writes);
    }
    IdStays(s, Step(s, w, e), events, i);
  }

  lemma AuthorizeRemembers(s: Settings, sh: Shared, c: Conn, cmd: Command, job: Job, writes: Writes)
    requires cmd.Authorize? && WrittenOk(c) && StateOk(c.state) && c.alive
    ensures var c1 := OnCommand(s, sh, c, cmd, Some(job), writes).1;
            c1.alive ==> c1.state.lastNotifyJobId == Some(job.jobId)
  {
    AuthorizeKeeps(s, sh, c.(state := NextState(c.state, cmd, sh.counter)), Some(job), writes);
  }

  // What a miner sees

  lemma {:induction false} PushesDifferAt(out: seq<Message>, j: nat, k: nat)
    requires PushesDiffer(out) && j < k < |out| && out[j].MiningNotify? && out[k].MiningNotify?
    requires forall m :: j < m < k ==> !out[m].MiningNotify? && out[m] != Response(AuthorizeReply)
    ensures out[j].job.jobId != out[k].job.jobId
    decreases |out|
  {
    var front := out[..|out| - 1];
    if k < |front| {
      PushesDifferAt(front, j, k);
    } else {
      LastIs(front, j);
    }
  }

  lemma {:induction false} LastIs(out: seq<Message>, j: nat)
    requires j < |out| && out[j].MiningNotify?
    requires forall m :: j < m < |out| ==> !out[m].MiningNotify? && out[m] != Response(AuthorizeReply)
    ensures LastNotified(out) == Some(out[j].job.jobId) && !JustAuthorized(out)
    decreases |out|
  {
    if j < |out| - 1 {
      assert !out[|out| - 1].MiningNotify?;
      LastIs(out[..|out| - 1], j);
    }
  }

  /**
   In every run, on every connection: a job line always follows a difficulty line, every
   difficulty line carries the session difficulty, every job line is for a registered job, two job lines
   in a row with no authorize answered in between have different ids, and the session's own
   record of the last id is the id of the last job line.
   */
  lemma LinesOverRuns(s: Settings, worth: Worth, from: Origin, events: seq<Event>, i: nat)
    requires Trusted(s, worth) && AllBring(from, events) && i < |Run(s, START_WORLD, events).peers|
    ensures var c := Run(s, START_WORLD, events).peers[i].conn;
            && AllAnnounced(c.written)
            && LinesOk(c.written, s.difficulty, Run(s, START_WORLD, events).past.registered)
            && LastNotified(c.written) == c.state.lastNotifyJobId
            && (forall j, k :: 0 <= j < k < |c.written| && SuccessiveNotifies(c.written, j, k) ==>
                  c.written[j].job.jobId != c.written[k].job.jobId)
  {
    ReachableOk(s, worth, from, events);
    var w := Run(s, START_WORLD, events);
    assert PeerOk(worth, w.peers[i], |w.past.broadcasts|);
    var out := w.peers[i].conn.written;
    forall j, k | 0 <= j < k < |out| && SuccessiveNotifies(out, j, k) ensures out[j].job.jobId != out[k].job.jobId {
      PushesDifferAt(out, j, k);
    }
  }

  predicate SuccessiveNotifies(out: seq<Message>, j: nat, k: nat)
    requires j < k < |out|
  {
    && out[j].MiningNotify? && out[k].MiningNotify?
    && forall m :: j < m < k ==> !out[m].MiningNotify? && out[m] != Response(AuthorizeReply)
  }

  // Which job a share is judged against

  /** Every job from there clears the registry. Jobs made from templates do. */
  ghost predicate OnlyClean(from: Origin) {
    forall job: Job :: from(job) ==> job.cleanJobs
  }

  lemma LastCleanStays(jobs: seq<Job>)
    requires jobs != [] && jobs[|jobs| - 1].cleanJobs
    ensures var last := jobs[|jobs| - 1];
            RunRegistry(EMPTY_REGISTRY, jobs) == Registry(map[last.jobId := last], [last.jobId])
  {
    var front, last := jobs[..|jobs| - 1], jobs[|jobs| - 1];
    assert jobs == front + [last];
    RunRegistrySnoc(EMPTY_REGISTRY, front, last);
    CleanLeavesOnlyTheJob(RunRegistry(EMPTY_REGISTRY, front), last);
  }

  /** The job the whole pool registered last. */
  function LastRegistered(w: World): Job
    requires w.past.registered != []
  {
    w.past.registered[|w.past.registered| - 1]
  }

  /** With clean jobs only, the registry holds exactly the job registered last, by whichever session. */
  lemma OneJobPoolWide(s: Settings, worth: Worth, from: Origin, events: seq<Event>)
    requires Trusted(s, worth) && AllBring(from, events) && OnlyClean(from)
    ensures var w := Run(s, START_WORLD, events);
            w.shared.registry
            == if w.past.registered == [] then EMPTY_REGISTRY
               else Registry(map[LastRegistered(w).jobId := LastRegistered(w)], [LastRegistered(w).jobId])
  {
    ReachableOk(s, worth, from, events);
    var w := Run(s, START_WORLD, events);
    if w.past.registered != [] {
      assert LastRegistered(w) in w.past.registered;
      LastCleanStays(w.past.registered);
    }
  }

  /** A job line on a connection is for a job that was registered. */
  lemma {:induction false} LastJobLogged(out: seq<Message>, d: u32, jobs: seq<Job>)
    requires LinesOk(out, d, jobs) && LastJob(out).Some?
    ensures LastJob(out).value in jobs
    decreases |out|
  {
    assert LineOk(out[|out| - 1], d, jobs);
    if !out[|out| - 1].MiningNotify? {
      var front := out[..|out| - 1];
      assert forall k :: 0 <= k < |front| ==> front[k] == out[k];
      LastJobLogged(front, d, jobs);
    }
  }

  /**
   With clean jobs only, an id finds the pool's last registered job or nothing. So a session's
   share for the job it was last sent is judged against that very job if and only if that job is
   the last one any session of the pool was sent; otherwise it is judged against another job of
   the same id, or is unknown.
   */
  lemma JudgedAgainst(s: Settings, worth: Worth, from: Origin, events: seq<Event>, i: nat)
    requires Trusted(s, worth) && AllBring(from, events) && OnlyClean(from)
    requires i < |Run(s, START_WORLD, events).peers|
    requires LastJob(Run(s, START_WORLD, events).peers[i].conn.written).Some?
    ensures var w := Run(s, START_WORLD, events);
            var own := LastJob(w.peers[i].conn.written).value;
            && w.past.registered != []
            && (forall id: string ::
                  Lookup(w.shared.registry, id)
                  == if id == LastRegistered(w).jobId then Some(LastRegistered(w)) else None)
            && (Lookup(w.shared.registry, own.jobId) == Some(own) <==> own == LastRegistered(w))
  {
    ReachableOk(s, worth, from, events);
    var w := Run(s, START_WORLD, events);
    LastJobLogged(w.peers[i].conn.written, s.difficulty, w.past.registered);
    OneJobPoolWide(s, worth, from, events);
  }

  // Short runs

  lemma TwoSteps(s: Settings, w: World, e: Event, f: Event)
    ensures Run(s, w, [e, f]) == Step(s, Step(s, w, e), f)
  {
    assert [e, f][1..] == [f] && [f][1..] == [];
    assert Run(s, Step(s, w, e), [f]) == Run(s, Step(s, Step(s, w, e), f), []);
  }
}
