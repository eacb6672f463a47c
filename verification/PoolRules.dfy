/** What every run of the pool keeps. */
module PoolRules {
  import opened Bytes
  import opened Wrappers
  import opened Hex
  import opened Sequences
  import opened Jobs
  import opened JobRegistry
  import opened ShareLog
  import opened CandidateSubmit
  import opened SubmitHandler
  import opened DomainMapper
  import opened Session
  import opened SessionRules
  import opened Broadcast
  import opened Poller
  import opened Pool

  /** What an accepted share has been shown to be. */
  type Worth = (Job, Share, ShareResult) -> bool

  /** The judge accepts only shares for registered jobs, and only when they are worth it. */
  ghost predicate Trusted(s: Settings, worth: Worth) {
    forall r: Registry, share: Share ::
      s.judge(r, share).IsAccepted() ==>
        Lookup(r, share.jobId).Some? && worth(Lookup(r, share.jobId).value, share, s.judge(r, share))
  }

  // Sessions

  ghost predicate PeerOk(worth: Worth, p: Peer, sent: nat) {
    && StateOk(p.conn.state) && WrittenOk(p.conn) && p.cursor <= sent
    && (p.conn.pending.Some? ==>
          && p.conn.alive && Gated(p.conn.pending.value.share)
          && worth(p.conn.pending.value.job, p.conn.pending.value.share, Block))
  }

  ghost predicate PeersOk(worth: Worth, w: World) {
    forall i :: 0 <= i < |w.peers| ==> PeerOk(worth, w.peers[i], |w.past.broadcasts|)
  }

  predicate RingOk(w: World) {
    w.ring == RingOf(w.past.broadcasts)
  }

  /** The step that a session makes, seen from outside: what it does to the registry and to its own lines. */
  ghost predicate Moves(worth: Worth, sh: Shared, p: Peer, sh1: Shared, q: Peer, job: Option<Job>, sent: nat) {
    && PeerOk(worth, q, sent)
    && p.conn.written <= q.conn.written
    && (sh1.registry == sh.registry
        || (job.Some? && sh1.registry == Registered(sh.registry, job.value) && Announced(q.conn.written, job.value)))
    && (q.conn.pending.Some? ==>
          || q.conn.pending == p.conn.pending
          || Lookup(sh.registry, q.conn.pending.value.share.jobId) == Some(q.conn.pending.value.job))
  }

  lemma RequestMoves(s: Settings, worth: Worth, w: World, i: nat, cmd: Command, current: Option<Job>, writes: Writes)
    requires Trusted(s, worth) && PeersOk(worth, w) && Idle(w, i)
    ensures var next := OnRequest(s, w, i, cmd, current, writes);
            Moves(worth, w.shared, w.peers[i], next.shared, next.peers[i], current, |w.past.broadcasts|)
  {
    assert PeerOk(worth, w.peers[i], |w.past.broadcasts|);
    var c := w.peers[i].conn;
    CommandKeeps(s, w.shared, c, cmd, current, writes);
    if cmd.Submit? && Gate(c.state, cmd.submission).Ok? {
      assert Gated(Gate(c.state, cmd.submission).value);
      PendingIsWorth(s, worth, w.shared, c, Gate(c.state, cmd.submission).value, writes.response);
    } else {
      OtherCommandsDecideNothing(s, w.shared, c, cmd, current, writes);
    }
  }

  lemma PendingIsWorth(s: Settings, worth: Worth, sh: Shared, c: Conn, share: Share, ok: bool)
    requires Trusted(s, worth) && c.alive && c.pending.None?
    ensures var c1 := OnShare(s, sh, c, share, ok).1;
            c1.pending.Some? ==>
              && c1.alive && c1.pending.value.share == share
              && worth(c1.pending.value.job, share, Block)
              && Lookup(sh.registry, c1.pending.value.share.jobId) == Some(c1.pending.value.job)
  {
    assert s.judge(sh.registry, share).IsAccepted() ==>
        worth(Lookup(sh.registry, share.jobId).value, share, s.judge(sh.registry, share));
  }

  lemma OtherCommandsDecideNothing(s: Settings, sh: Shared, c: Conn, cmd: Command, current: Option<Job>, writes: Writes)
    requires c.pending.None? && (cmd.Submit? ==> Gate(c.state, cmd.submission).Err?)
    ensures OnCommand(s, sh, c, cmd, current, writes).1.pending.None?
  {
  }

  lemma DecidedMoves(s: Settings, worth: Worth, w: World, i: nat, current: Option<Job>, writes: Writes)
    requires PeersOk(worth, w) && Deciding(w, i)
    ensures var next := OnDecided(s, w, i, current, writes);
            Moves(worth, w.shared, w.peers[i], next.shared, next.peers[i], None, |w.past.broadcasts|)
  {
    assert PeerOk(worth, w.peers[i], |w.past.broadcasts|);
    FinishKeeps(s, w.shared, w.peers[i].conn, current, writes.response);
  }

  lemma ListenMoves(s: Settings, worth: Worth, w: World, i: nat, writes: Writes)
    requires PeersOk(worth, w) && RingOk(w) && Idle(w, i)
    ensures CanListen(w, i)
    ensures var next := OnListen(s, w, i, writes);
            Moves(worth, w.shared, w.peers[i], next.shared, next.peers[i], Heard(w, i), |w.past.broadcasts|)
  {
    var p := w.peers[i];
    assert PeerOk(worth, p, |w.past.broadcasts|);
    ReceiveReadsHistory(w.past.broadcasts, p.cursor);
    if Receive(w.ring, p.cursor).0.Item? {
      JobKeeps(s, w.shared, p.conn, Receive(w.ring, p.cursor).0.value, writes);
    }
  }

  /** The broadcast job the next receive would deliver. */
  function Heard(w: World, i: nat): Option<Job>
    requires CanListen(w, i)
  {
    match Receive(w.ring, w.peers[i].cursor).0
    case Item(job) => Some(job)
    case _ => None
  }

  lemma ComplaintMoves(worth: Worth, w: World, i: nat, line: Line, writes: Writes)
    requires PeersOk(worth, w) && Idle(w, i) && !line.Parsed?
    ensures Moves(worth, w.shared, w.peers[i], w.shared, OnComplaint(w, i, line, writes).peers[i], None,
                  |w.past.broadcasts|)
  {
    assert PeerOk(worth, w.peers[i], |w.past.broadcasts|);
    BadLineKeeps(w.peers[i].conn, line, writes.response);
  }

  lemma HangupMoves(worth: Worth, w: World, i: nat)
    requires PeersOk(worth, w) && Idle(w, i)
    ensures Moves(worth, w.shared, w.peers[i], w.shared, w.peers[i].(conn := w.peers[i].conn.(alive := false)), None,
                  |w.past.broadcasts|)
  {
    assert PeerOk(worth, w.peers[i], |w.past.broadcasts|);
  }

  // One step

  type Origin = Job -> bool

  /** Every job the event brings in comes from there. */
  predicate Brings(from: Origin, e: Event) {
    match e
    case Poll(found) => found.Some? ==> from(found.value)
    case Request(_, _, current, _) => current.Some? ==> from(current.value)
    case _ => true
  }

  ghost predicate BroadcastsFrom(from: Origin, w: World) {
    forall job :: job in w.past.broadcasts ==> from(job)
  }

  /** Exactly session i moved, and the job it may have registered has the right origin. */
  ghost predicate MovedBy(worth: Worth, from: Origin, w: World, next: World, i: nat, job: Option<Job>) {
    && i < |w.peers| && i < |next.peers|
    && next == Moved(w, i, next.shared, next.peers[i], next.past)
    && Moves(worth, w.shared, w.peers[i], next.shared, next.peers[i], job, |w.past.broadcasts|)
    && next.past.broadcasts == w.past.broadcasts
    && (job.Some? ==> from(job.value))
  }

  /** Every step is a new session, a poll, nothing, or a move of one session. */
  lemma StepShape(s: Settings, worth: Worth, from: Origin, w: World, e: Event) returns (i: nat, job: Option<Job>)
    requires Trusted(s, worth) && PeersOk(worth, w) && RingOk(w) && BroadcastsFrom(from, w) && Brings(from, e)
    ensures || e.Connect? || e.Poll? || Step(s, w, e) == w
            || MovedBy(worth, from, w, Step(s, w, e), i, job)
  {
    i, job := 0, None;
    match e
    case Request(k, cmd, current, writes) =>
      if Idle(w, k) {
        RequestMoves(s, worth, w, k, cmd, current, writes);
        i, job := k, current;
      }
    case BadLine(k, line, writes) =>
      if Idle(w, k) && !line.Parsed? {
        ComplaintMoves(worth, w, k, line, writes);
        i := k;
      }
    case Finish(k, current, writes) =>
      if Deciding(w, k) {
        DecidedMoves(s, worth, w, k, current, writes);
        i := k;
      }
    case Listen(k, writes) =>
      if CanListen(w, k) {
        ListenMoves(s, worth, w, k, writes);
        HeardIsBroadcast(w, k);
        i, job := k, Heard(w, k);
      }
    case Hangup(k) =>
      if Idle(w, k) {
        HangupMoves(worth, w, k);
        i := k;
      }
    case _ =>
  }

  lemma HeardIsBroadcast(w: World, i: nat)
    requires RingOk(w) && CanListen(w, i)
    ensures Heard(w, i).Some? ==> Heard(w, i).value in w.past.broadcasts
  {
    ReceiveReadsHistory(w.past.broadcasts, w.peers[i].cursor);
  }

  // Sessions and the broadcast channel

  lemma PeersStep(s: Settings, worth: Worth, from: Origin, w: World, e: Event)
    requires Trusted(s, worth) && PeersOk(worth, w) && RingOk(w) && BroadcastsFrom(from, w) && Brings(from, e)
    ensures PeersOk(worth, Step(s, w, e))
  {
    var i, job := StepShape(s, worth, from, w, e);
    var next := Step(s, w, e);
    forall k | 0 <= k < |next.peers| ensures PeerOk(worth, next.peers[k], |next.past.broadcasts|) {
      if k < |w.peers| {
        assert PeerOk(worth, w.peers[k], |w.past.broadcasts|);
      }
    }
  }

  lemma RingStep(s: Settings, worth: Worth, from: Origin, w: World, e: Event)
    requires Trusted(s, worth) && PeersOk(worth, w) && RingOk(w) && BroadcastsFrom(from, w) && Brings(from, e)
    ensures RingOk(Step(s, w, e)) && BroadcastsFrom(from, Step(s, w, e))
  {
    var i, job := StepShape(s, worth, from, w, e);
    if e.Poll? && Polled(w.polled, e.found).1.Some? {
      SendAppends(w.past.broadcasts, e.found.value);
    }
  }

  // Issued jobs

  /** Some session was sent the job, right after a difficulty. */
  ghost predicate Issued(peers: seq<Peer>, job: Job) {
    exists i :: 0 <= i < |peers| && Announced(peers[i].conn.written, job)
  }

  ghost predicate Known(from: Origin, peers: seq<Peer>, job: Job) {
    from(job) && Issued(peers, job)
  }

  ghost predicate Grows(peers: seq<Peer>, next: seq<Peer>) {
    |peers| <= |next| && forall i :: 0 <= i < |peers| ==> peers[i].conn.written <= next[i].conn.written
  }

  lemma StepGrows(s: Settings, worth: Worth, from: Origin, w: World, e: Event)
    requires Trusted(s, worth) && PeersOk(worth, w) && RingOk(w) && BroadcastsFrom(from, w) && Brings(from, e)
    ensures Grows(w.peers, Step(s, w, e).peers)
  {
    var i, job := StepShape(s, worth, from, w, e);
  }

  lemma KnownGrows(from: Origin, peers: seq<Peer>, next: seq<Peer>, job: Job)
    requires Grows(peers, next) && Known(from, peers, job)
    ensures Known(from, next, job)
  {
    var i :| 0 <= i < |peers| && Announced(peers[i].conn.written, job);
    AnnouncedGrows(peers[i].conn.written, next[i].conn.written, job);
  }

  /** The registry and every undecided share refer only to issued jobs. */
  ghost predicate RegistryOk(from: Origin, w: World) {
    && Consistent(w.shared.registry)
    && (forall id :: id in w.shared.registry.byId ==> Known(from, w.peers, w.shared.registry.byId[id]))
    && (forall i :: 0 <= i < |w.peers| && w.peers[i].conn.pending.Some? ==>
          Known(from, w.peers, w.peers[i].conn.pending.value.job))
  }

  lemma RegistryStep(s: Settings, worth: Worth, from: Origin, w: World, e: Event)
    requires Trusted(s, worth) && PeersOk(worth, w) && RingOk(w) && BroadcastsFrom(from, w) && Brings(from, e)
    requires RegistryOk(from, w)
    ensures RegistryOk(from, Step(s, w, e))
  {
    var i, job := StepShape(s, worth, from, w, e);
    var next := Step(s, w, e);
    StepGrows(s, worth, from, w, e);
    if MovedBy(worth, from, w, next, i, job) {
      RegistryMoved(worth, from, w, next, i, job);
    } else {
      assert next.shared == w.shared;
      RegistrySame(from, w, next);
    }
  }

  lemma RegistrySame(from: Origin, w: World, next: World)
    requires RegistryOk(from, w) && next.shared == w.shared && Grows(w.peers, next.peers)
    requires forall i :: 0 <= i < |next.peers| && next.peers[i].conn.pending.Some? ==>
               i < |w.peers| && next.peers[i].conn.pending == w.peers[i].conn.pending
    ensures RegistryOk(from, next)
  {
    forall id | id in next.shared.registry.byId ensures Known(from, next.peers, next.shared.registry.byId[id]) {
      KnownGrows(from, w.peers, next.peers, w.shared.registry.byId[id]);
    }
    forall i | 0 <= i < |next.peers| && next.peers[i].conn.pending.Some?
      ensures Known(from, next.peers, next.peers[i].conn.pending.value.job)
    {
      KnownGrows(from, w.peers, next.peers, w.peers[i].conn.pending.value.job);
    }
  }

  lemma RegistryMoved(worth: Worth, from: Origin, w: World, next: World, i: nat, job: Option<Job>)
    requires RegistryOk(from, w) && MovedBy(worth, from, w, next, i, job) && Grows(w.peers, next.peers)
    ensures RegistryOk(from, next)
  {
    if next.shared.registry != w.shared.registry {
      RegisteredConsistent(w.shared.registry, job.value);
    }
    forall id | id in next.shared.registry.byId ensures Known(from, next.peers, next.shared.registry.byId[id]) {
      EntryMoved(worth, from, w, next, i, job, id);
    }
    forall k | 0 <= k < |next.peers| && next.peers[k].conn.pending.Some?
      ensures Known(from, next.peers, next.peers[k].conn.pending.value.job)
    {
      KnownGrows(from, w.peers, next.peers, next.peers[k].conn.pending.value.job);
    }
  }

  lemma EntryMoved(worth: Worth, from: Origin, w: World, next: World, i: nat, job: Option<Job>, id: string)
    requires RegistryOk(from, w) && MovedBy(worth, from, w, next, i, job) && Grows(w.peers, next.peers)
    requires id in next.shared.registry.byId
    ensures Known(from, next.peers, next.shared.registry.byId[id])
  {
    var r, r1 := w.shared.registry, next.shared.registry;
    if r1 != r {
      RegisteredEntries(r, job.value, id);
      assert Announced(next.peers[i].conn.written, job.value);
    }
    if id in r.byId && r1.byId[id] == r.byId[id] {
      KnownGrows(from, w.peers, next.peers, r.byId[id]);
    }
  }

  // Credit

  /** Who a session is authorized as was asked for in an authorize of that session. */
  ghost predicate AuthorizedOk(w: World) {
    forall i :: 0 <= i < |w.peers| && w.peers[i].conn.state.authorizedWorker.Some? ==>
      (i, w.peers[i].conn.state.authorizedWorker.value) in w.past.authorized
  }

  lemma AuthorizedStep(s: Settings, w: World, e: Event)
    requires AuthorizedOk(w)
    ensures AuthorizedOk(Step(s, w, e))
    ensures w.past.authorized <= Step(s, w, e).past.authorized
  {
    if e.Request? && Idle(w, e.i) {
      CommandIdentity(s, w.shared, w.peers[e.i].conn, e.cmd, e.current, e.writes);
    }
  }

  lemma CommandIdentity(s: Settings, sh: Shared, c: Conn, cmd: Command, current: Option<Job>, writes: Writes)
    ensures OnCommand(s, sh, c, cmd, current, writes).1.state.authorizedWorker
         == if cmd.Authorize? then Some(cmd.username) else c.state.authorizedWorker
  {
  }

  /**
   A credit is for a share that is worth it, on an issued job, from a session authorized under
   the share's own name.
   */
  ghost predicate CreditOk(worth: Worth, from: Origin, w: World, c: Credit) {
    && c.result.IsAccepted() && c.job.Some?
    && c.job.value.jobId == c.share.jobId
    && Gated(c.share)
    && worth(c.job.value, c.share, c.result)
    && Known(from, w.peers, c.job.value)
    && (c.session, c.share.workerId) in w.past.authorized
  }

  ghost predicate CreditsOk(worth: Worth, from: Origin, w: World) {
    forall k :: 0 <= k < |w.past.credits| ==> CreditOk(worth, from, w, w.past.credits[k])
  }

  /** At most one share was credited, and rightly. */
  ghost predicate CreditsGood(worth: Worth, from: Origin, w: World, credits: seq<Credit>) {
    || credits == w.past.credits
    || (|credits| == |w.past.credits| + 1 && credits[..|w.past.credits|] == w.past.credits
        && CreditOk(worth, from, w, credits[|w.past.credits|]))
  }

  lemma NewCredit(s: Settings, worth: Worth, from: Origin, w: World, e: Event)
    requires Trusted(s, worth) && PeersOk(worth, w) && RegistryOk(from, w) && AuthorizedOk(w)
    ensures CreditsGood(worth, from, w, Step(s, w, e).past.credits)
  {
    if e.Request? && Idle(w, e.i) && e.cmd.Submit? && Gate(w.peers[e.i].conn.state, e.cmd.submission).Ok? {
      ShareCredit(s, worth, from, w, e.i, e.cmd.submission);
    }
  }

  lemma ShareCredit(s: Settings, worth: Worth, from: Origin, w: World, i: nat, sub: Submission)
    requires Trusted(s, worth) && PeersOk(worth, w) && RegistryOk(from, w) && AuthorizedOk(w)
    requires Idle(w, i) && Gate(w.peers[i].conn.state, sub).Ok?
    ensures CreditsGood(worth, from, w, NoteCommand(s, w.shared, w.peers[i].conn.state, w.past, i, Submit(sub)).credits)
  {
    var share := Gate(w.peers[i].conn.state, sub).value;
    assert PeerOk(worth, w.peers[i], |w.past.broadcasts|);
    assert Gated(share);
    assert s.judge(w.shared.registry, share).IsAccepted() ==>
        worth(Lookup(w.shared.registry, share.jobId).value, share, s.judge(w.shared.registry, share));
  }

  lemma CreditsStep(s: Settings, worth: Worth, from: Origin, w: World, e: Event)
    requires Trusted(s, worth) && PeersOk(worth, w) && RegistryOk(from, w) && AuthorizedOk(w)
    requires CreditsOk(worth, from, w)
    requires Grows(w.peers, Step(s, w, e).peers)
    ensures CreditsOk(worth, from, Step(s, w, e))
  {
    NewCredit(s, worth, from, w, e);
    AuthorizedStep(s, w, e);
    CreditsKept(worth, from, w, Step(s, w, e));
  }

  lemma CreditsKept(worth: Worth, from: Origin, w: World, next: World)
    requires CreditsOk(worth, from, w) && CreditsGood(worth, from, w, next.past.credits)
    requires Grows(w.peers, next.peers) && w.past.authorized <= next.past.authorized
    ensures CreditsOk(worth, from, next)
  {
    forall k | 0 <= k < |next.past.credits| ensures CreditOk(worth, from, next, next.past.credits[k]) {
      assert k < |w.past.credits| ==> next.past.credits[k] == w.past.credits[k];
      KnownGrows(from, w.peers, next.peers, next.past.credits[k].job.value);
    }
  }

  // Submitted blocks

  /** A submitted block was built from an issued job, for a share that was a block on an issued job of the same id. */
  ghost predicate SentOk(s: Settings, worth: Worth, from: Origin, w: World, b: SentBlock) {
    && s.assemble(b.job, b.won.share) == Some(b.candidate)
    && Gated(b.won.share)
    && worth(b.won.job, b.won.share, Block)
    && b.job.jobId == b.won.share.jobId
    && Known(from, w.peers, b.job) && Known(from, w.peers, b.won.job)
  }

  function Candidates(sent: seq<SentBlock>): seq<BlockCandidate>
    decreases |sent|
  {
    if sent == [] then [] else Candidates(sent[..|sent| - 1]) + [sent[|sent| - 1].candidate]
  }

  ghost predicate AllSentOk(s: Settings, worth: Worth, from: Origin, w: World) {
    && w.shared.submitted == Candidates(w.past.sent)
    && forall k :: 0 <= k < |w.past.sent| ==> SentOk(s, worth, from, w, w.past.sent[k])
  }

  /** At most one block was submitted, and it is a good one. */
  ghost predicate SendsGood(s: Settings, worth: Worth, from: Origin, w: World, next: World) {
    || (next.past.sent == w.past.sent && next.shared.submitted == w.shared.submitted)
    || (|next.past.sent| == |w.past.sent| + 1 && next.past.sent[..|w.past.sent|] == w.past.sent
        && SentOk(s, worth, from, w, next.past.sent[|w.past.sent|])
        && next.shared.submitted == w.shared.submitted + [next.past.sent[|w.past.sent|].candidate])
  }

  lemma NewSent(s: Settings, worth: Worth, from: Origin, w: World, e: Event)
    requires PeersOk(worth, w) && RegistryOk(from, w)
    ensures SendsGood(s, worth, from, w, Step(s, w, e))
  {
    match e
    case Finish(i, current, writes) =>
      if Deciding(w, i) {
        DecidedSends(s, worth, from, w, i, current, writes);
      }
    case Request(i, cmd, current, writes) =>
      if Idle(w, i) {
        CommandSubmitsNothing(s, w.shared, w.peers[i].conn, cmd, current, writes);
        NotesNoBlock(s, w.shared, w.peers[i].conn.state, w.past, i, cmd);
      }
    case Listen(i, writes) =>
      if CanListen(w, i) && Heard(w, i).Some? {
        JobSubmitsNothing(s, w.shared, w.peers[i].conn, Heard(w, i).value, writes);
      }
    case _ =>
  }

  lemma DecidedSends(s: Settings, worth: Worth, from: Origin, w: World, i: nat, current: Option<Job>, writes: Writes)
    requires PeersOk(worth, w) && RegistryOk(from, w) && Deciding(w, i)
    ensures SendsGood(s, worth, from, w, OnDecided(s, w, i, current, writes))
  {
    assert PeerOk(worth, w.peers[i], |w.past.broadcasts|);
    NoteMatches(s, w.shared.registry, w.past, i, w.peers[i].conn.pending.value, current);
  }

  lemma NotesNoBlock(s: Settings, sh: Shared, st: SessionState, past: Past, i: nat, cmd: Command)
    ensures NoteCommand(s, sh, st, past, i, cmd).sent == past.sent
  {
  }

  lemma JobSubmitsNothing(s: Settings, sh: Shared, c: Conn, job: Job, writes: Writes)
    ensures OnJob(s, sh, c, job, writes).0.submitted == sh.submitted
  {
  }

  lemma NoteMatches(s: Settings, r: Registry, past: Past, i: nat, won: Pending, current: Option<Job>)
    ensures var candidate := MaybeCandidate(s.assemble, r, won.share, current);
            NoteFinish(s, r, past, i, won, current).sent
            == if candidate.Some? then
                 past.sent + [SentBlock(i, won, Lookup(r, won.share.jobId).value, candidate.value)]
               else past.sent
  {
  }

  lemma CommandSubmitsNothing(s: Settings, sh: Shared, c: Conn, cmd: Command, current: Option<Job>, writes: Writes)
    ensures OnCommand(s, sh, c, cmd, current, writes).0.submitted == sh.submitted
  {
  }

  lemma SentStep(s: Settings, worth: Worth, from: Origin, w: World, e: Event)
    requires PeersOk(worth, w) && RegistryOk(from, w) && AllSentOk(s, worth, from, w)
    requires Grows(w.peers, Step(s, w, e).peers)
    ensures AllSentOk(s, worth, from, Step(s, w, e))
  {
    var next := Step(s, w, e);
    NewSent(s, worth, from, w, e);
    SentKept(s, worth, from, w, next);
  }

  lemma SentKept(s: Settings, worth: Worth, from: Origin, w: World, next: World)
    requires SendsGood(s, worth, from, w, next) && AllSentOk(s, worth, from, w) && Grows(w.peers, next.peers)
    ensures AllSentOk(s, worth, from, next)
  {
    if |next.past.sent| > |w.past.sent| {
      CandidatesGrow(w.past.sent, next.past.sent);
    }
    forall k | 0 <= k < |next.past.sent| ensures SentOk(s, worth, from, next, next.past.sent[k]) {
      SentAtStaysOk(s, worth, from, w, next, k);
    }
  }

  lemma CandidatesGrow(sent: seq<SentBlock>, more: seq<SentBlock>)
    requires |more| == |sent| + 1 && more[..|sent|] == sent
    ensures Candidates(more) == Candidates(sent) + [more[|sent|].candidate]
  {
  }

  lemma SentAtStaysOk(s: Settings, worth: Worth, from: Origin, w: World, next: World, k: nat)
    requires SendsGood(s, worth, from, w, next) && AllSentOk(s, worth, from, w) && Grows(w.peers, next.peers)
    requires k < |next.past.sent|
    ensures SentOk(s, worth, from, next, next.past.sent[k])
  {
    assert k < |w.past.sent| ==> next.past.sent[k] == w.past.sent[k];
    SentStaysOk(s, worth, from, w, next, next.past.sent[k]);
  }

  lemma SentStaysOk(s: Settings, worth: Worth, from: Origin, w: World, next: World, b: SentBlock)
    requires SentOk(s, worth, from, w, b) && Grows(w.peers, next.peers)
    ensures SentOk(s, worth, from, next, b)
  {
    KnownGrows(from, w.peers, next.peers, b.job);
    KnownGrows(from, w.peers, next.peers, b.won.job);
  }

  // The share log and the extranonce counter

  predicate BufferOk(w: World) {
    w.shared.buffer == LastN(w.past.attempts, MAX_RECENT)
  }

  lemma BufferStep(s: Settings, w: World, e: Event)
    requires BufferOk(w)
    ensures BufferOk(Step(s, w, e))
  {
    if e.Request? && Idle(w, e.i) && e.cmd.Submit? && Gate(w.peers[e.i].conn.state, e.cmd.submission).Ok? {
      var share := Gate(w.peers[e.i].conn.state, e.cmd.submission).value;
      LastNSnoc(w.past.attempts, MAX_RECENT, AttemptOf(share, s.judge(w.shared.registry, share)));
    }
  }

  /** The extranonce of the k-th subscribe, counted from zero over the pool's whole life. */
  function Extranonce(k: nat): string {
    HexU32((1 + k) % 0x1_0000_0000)
  }

  ghost predicate Ledger(counter: u32, issued: seq<(nat, string)>, peers: seq<Peer>) {
    counter == (1 + |issued|) % 0x1_0000_0000 && InOrder(issued) && HeldByOwner(issued, peers)
  }

  ghost predicate InOrder(issued: seq<(nat, string)>) {
    forall k :: 0 <= k < |issued| ==> issued[k].1 == Extranonce(k)
  }

  ghost predicate HeldByOwner(issued: seq<(nat, string)>, peers: seq<Peer>) {
    forall i :: 0 <= i < |peers| && peers[i].conn.state.subscribed ==> (i, peers[i].conn.state.extranonce1) in issued
  }

  /** The extranonces were issued in counting order, and every subscribed session holds one issued to itself. */
  ghost predicate LedgerOk(w: World) {
    Ledger(w.shared.counter, w.past.issued, w.peers)
  }

  predicate SameExtranonce(c: Conn, d: Conn) {
    c.state.subscribed == d.state.subscribed && c.state.extranonce1 == d.state.extranonce1
  }

  lemma LedgerStep(s: Settings, w: World, e: Event)
    requires LedgerOk(w)
    ensures LedgerOk(Step(s, w, e))
  {
    if e.Request? && Idle(w, e.i) && e.cmd.Subscribe? {
      CommandCounts(s, w.shared, w.peers[e.i].conn, e.cmd, e.current, e.writes);
      LedgerSubscribe(w.shared.counter, w.past.issued, w.peers, Step(s, w, e).peers, e.i);
    } else {
      OtherEventsIssueNothing(s, w, e);
      LedgerSame(w.shared.counter, w.past.issued, w.peers, Step(s, w, e).peers);
    }
  }

  lemma OtherEventsIssueNothing(s: Settings, w: World, e: Event)
    requires !(e.Request? && e.cmd.Subscribe?) || Step(s, w, e) == w
    ensures var next := Step(s, w, e);
            && next.shared.counter == w.shared.counter && next.past.issued == w.past.issued
            && |w.peers| <= |next.peers|
            && (forall k :: 0 <= k < |w.peers| ==> SameExtranonce(w.peers[k].conn, next.peers[k].conn))
            && (forall k :: |w.peers| <= k < |next.peers| ==> !next.peers[k].conn.state.subscribed)
  {
    if e.Request? && Idle(w, e.i) {
      CommandCounts(s, w.shared, w.peers[e.i].conn, e.cmd, e.current, e.writes);
    }
  }

  lemma LedgerSame(counter: u32, issued: seq<(nat, string)>, peers: seq<Peer>, next: seq<Peer>)
    requires Ledger(counter, issued, peers) && |peers| <= |next|
    requires forall k :: 0 <= k < |peers| ==> SameExtranonce(peers[k].conn, next[k].conn)
    requires forall k :: |peers| <= k < |next| ==> !next[k].conn.state.subscribed
    ensures Ledger(counter, issued, next)
  {
  }

  lemma CommandCounts(s: Settings, sh: Shared, c: Conn, cmd: Command, current: Option<Job>, writes: Writes)
    ensures var (sh1, c1) := OnCommand(s, sh, c, cmd, current, writes);
            && sh1.counter == (if cmd.Subscribe? then Increment(sh.counter) else sh.counter)
            && (if cmd.Subscribe? then c1.state.extranonce1 == HexU32(sh.counter) else SameExtranonce(c, c1))
  {
  }

  lemma LedgerSubscribe(counter: u32, issued: seq<(nat, string)>, peers: seq<Peer>, next: seq<Peer>, i: nat)
    requires Ledger(counter, issued, peers)
    requires i < |peers| == |next| && next[i].conn.state.extranonce1 == HexU32(counter)
    requires forall k :: 0 <= k < |peers| && k != i ==> next[k] == peers[k]
    ensures Ledger(Increment(counter), issued + [(i, HexU32(counter))], next)
  {
    IncrementCounts(|issued|);
    OrderExtends(issued, (i, HexU32(counter)));
    OwnersExtend(issued, peers, next, i, HexU32(counter));
  }

  lemma IncrementCounts(n: nat)
    ensures Increment((1 + n) % 0x1_0000_0000) == (1 + (n + 1)) % 0x1_0000_0000
  {
  }

  lemma OrderExtends(issued: seq<(nat, string)>, entry: (nat, string))
    requires InOrder(issued) && entry.1 == Extranonce(|issued|)
    ensures InOrder(issued + [entry])
  {
  }

  lemma OwnersExtend(issued: seq<(nat, string)>, peers: seq<Peer>, next: seq<Peer>, i: nat, text: string)
    requires HeldByOwner(issued, peers) && i < |peers| == |next| && next[i].conn.state.extranonce1 == text
    requires forall k :: 0 <= k < |peers| && k != i ==> next[k] == peers[k]
    ensures HeldByOwner(issued + [(i, text)], next)
  {
    var all := issued + [(i, text)];
    assert all[|issued|] == (i, text);
    forall k | 0 <= k < |next| && next[k].conn.state.subscribed ensures (k, next[k].conn.state.extranonce1) in all {
      if k != i {
        assert (k, peers[k].conn.state.extranonce1) in issued;
      }
    }
  }

  // The extranonce of a credit

  /** A credited share that carries an extranonce2 carries an extranonce1 issued to its own session. */
  predicate TextHeld(issued: seq<(nat, string)>, c: Credit) {
    && c.share.context.Some? && c.share.context.value.extranonce1Hex.Some?
    && c.share.context.value.expectedExtraNonce2Len.Some?
    && (c.share.context.value.expectedExtraNonce2Len.value > 0 ==>
          (c.session, c.share.context.value.extranonce1Hex.value) in issued)
  }

  predicate TextsHeld(issued: seq<(nat, string)>, credits: seq<Credit>) {
    forall k :: 0 <= k < |credits| ==> TextHeld(issued, credits[k])
  }

  predicate TextsOk(w: World) {
    TextsHeld(w.past.issued, w.past.credits)
  }

  lemma TextsStayHeld(issued: seq<(nat, string)>, more: seq<(nat, string)>, credits: seq<Credit>)
    requires TextsHeld(issued, credits) && issued <= more
    ensures TextsHeld(more, credits)
  {
    forall k | 0 <= k < |credits| ensures TextHeld(more, credits[k]) {
      var c := credits[k];
      assert TextHeld(issued, c);
      if c.share.context.value.expectedExtraNonce2Len.value > 0 {
        var j :| 0 <= j < |issued| && issued[j] == (c.session, c.share.context.value.extranonce1Hex.value);
        assert more[j] == issued[j];
      }
    }
  }

  lemma NewText(s: Settings, worth: Worth, w: World, i: nat, sub: Submission)
    requires PeersOk(worth, w) && LedgerOk(w) && TextsOk(w) && i < |w.peers|
    ensures TextsHeld(w.past.issued,
                      NoteCommand(s, w.shared, w.peers[i].conn.state, w.past, i, Submit(sub)).credits)
  {
    assert PeerOk(worth, w.peers[i], |w.past.broadcasts|);
  }

  lemma TextsStep(s: Settings, worth: Worth, w: World, e: Event)
    requires PeersOk(worth, w) && LedgerOk(w) && TextsOk(w)
    ensures TextsOk(Step(s, w, e))
  {
    var next := Step(s, w, e);
    if e.Request? && Idle(w, e.i) && e.cmd.Submit? {
      NewText(s, worth, w, e.i, e.cmd.submission);
    } else {
      OnlySubmitsCredit(s, w, e);
      TextsStayHeld(w.past.issued, next.past.issued, w.past.credits);
    }
  }

  lemma OnlySubmitsCredit(s: Settings, w: World, e: Event)
    requires !(e.Request? && e.cmd.Submit?) || Step(s, w, e) == w
    ensures Step(s, w, e).past.credits == w.past.credits
    ensures w.past.issued <= Step(s, w, e).past.issued
  {
  }

  // Registered jobs

  /**
   The registry is what registering the logged jobs one after another leaves, every difficulty
   line carries d, and every job line on a connection is for one of the logged jobs.
   */
  ghost predicate Logged(d: u32, from: Origin, w: World) {
    && w.shared.registry == RunRegistry(EMPTY_REGISTRY, w.past.registered)
    && (forall job :: job in w.past.registered ==> from(job))
    && (forall i :: 0 <= i < |w.peers| ==> LinesOk(w.peers[i].conn.written, d, w.past.registered))
  }

  lemma {:induction false} RunRegistrySnoc(r: Registry, jobs: seq<Job>, job: Job)
    ensures RunRegistry(r, jobs + [job]) == Registered(RunRegistry(r, jobs), job)
    decreases |jobs|
  {
    if jobs == [] {
      assert [] + [job] == [job] && [job][1..] == [];
      assert RunRegistry(r, [job]) == RunRegistry(Registered(r, job), []);
    } else {
      RunRegistrySnoc(Registered(r, jobs[0]), jobs[1..], job);
      assert (jobs + [job])[1..] == jobs[1..] + [job];
    }
  }

  /** One session moved, and registered at most this job. */
  predicate MovedLines(d: u32, w: World, next: World, i: nat, job: Option<Job>) {
    && i < |w.peers| == |next.peers|
    && next.peers == w.peers[i := next.peers[i]]
    && next.past.registered == Appended(w.past.registered, job)
    && next.shared.registry == (if job.Some? then Registered(w.shared.registry, job.value) else w.shared.registry)
    && LinesOk(next.peers[i].conn.written, d, next.past.registered)
  }

  lemma LoggedMoved(d: u32, from: Origin, w: World, next: World, i: nat, job: Option<Job>)
    requires Logged(d, from, w) && MovedLines(d, w, next, i, job) && (job.Some? ==> from(job.value))
    ensures Logged(d, from, next)
  {
    if job.Some? {
      RunRegistrySnoc(EMPTY_REGISTRY, w.past.registered, job.value);
    }
    forall k | 0 <= k < |next.peers| ensures LinesOk(next.peers[k].conn.written, d, next.past.registered) {
      if k != i {
        LinesStayOk(w.peers[k].conn.written, d, w.past.registered, next.past.registered);
      }
    }
  }

  lemma RequestLines(s: Settings, from: Origin, w: World, i: nat, cmd: Command, current: Option<Job>, writes: Writes)
    returns (job: Option<Job>)
    requires Logged(s.difficulty, from, w) && Idle(w, i)
    ensures MovedLines(s.difficulty, w, OnRequest(s, w, i, cmd, current, writes), i, job)
    ensures job.Some? ==> job == current
  {
    CommandLines(s, w.shared, w.peers[i].conn, cmd, current, writes, w.past.registered);
    job := PushedBy(cmd, current, OnCommand(s, w.shared, w.peers[i].conn, cmd, current, writes).1);
    NotesNoJob(s, w.shared, w.peers[i].conn.state, w.past, i, cmd);
  }

  lemma NotesNoJob(s: Settings, sh: Shared, st: SessionState, past: Past, i: nat, cmd: Command)
    ensures NoteCommand(s, sh, st, past, i, cmd).registered == past.registered
  {
  }

  lemma ListenLines(s: Settings, from: Origin, w: World, i: nat, writes: Writes) returns (job: Option<Job>)
    requires Logged(s.difficulty, from, w) && RingOk(w) && CanListen(w, i)
    ensures MovedLines(s.difficulty, w, OnListen(s, w, i, writes), i, job)
    ensures job.Some? ==> job.value in w.past.broadcasts
  {
    job := None;
    HeardIsBroadcast(w, i);
    if Heard(w, i).Some? {
      JobLines(s, w.shared, w.peers[i].conn, Heard(w, i).value, writes, w.past.registered);
      job := PushedJob(w.peers[i].conn, Heard(w, i).value, OnListen(s, w, i, writes).peers[i].conn);
    }
  }

  lemma LoggedStep(s: Settings, from: Origin, w: World, e: Event)
    requires Logged(s.difficulty, from, w) && RingOk(w) && BroadcastsFrom(from, w) && Brings(from, e)
    ensures Logged(s.difficulty, from, Step(s, w, e))
  {
    var next := Step(s, w, e);
    match e
    case Request(i, cmd, current, writes) =>
      if Idle(w, i) {
        var job := RequestLines(s, from, w, i, cmd, current, writes);
        LoggedMoved(s.difficulty, from, w, next, i, job);
      }
    case Listen(i, writes) =>
      if CanListen(w, i) {
        var job := ListenLines(s, from, w, i, writes);
        LoggedMoved(s.difficulty, from, w, next, i, job);
      }
    case _ => OtherLogged(s, from, w, e);
  }

  lemma OtherLogged(s: Settings, from: Origin, w: World, e: Event)
    requires Logged(s.difficulty, from, w) && !e.Request? && !e.Listen?
    ensures Logged(s.difficulty, from, Step(s, w, e))
  {
    var next := Step(s, w, e);
    FinishNotesNoJob(s, w, e);
    forall k | 0 <= k < |next.peers| ensures LinesOk(next.peers[k].conn.written, s.difficulty, next.past.registered) {
      if k < |w.peers| {
        assert LinesOk(w.peers[k].conn.written, s.difficulty, w.past.registered);
      }
    }
  }

  lemma FinishNotesNoJob(s: Settings, w: World, e: Event)
    requires !e.Request? && !e.Listen?
    ensures Step(s, w, e).past.registered == w.past.registered
    ensures Step(s, w, e).shared.registry == w.shared.registry
  {
  }
}
