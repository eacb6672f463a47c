/** What every step of one session keeps, whatever the other sessions and the network do. */
module SessionRules {
  import opened Bytes
  import opened Wrappers
  import opened Hex
  import opened Jobs
  import opened JobRegistry
  import opened ShareProcessor
  import opened VersionRolling
  import opened DomainMapper
  import opened Session

  // The session's state

  /** Subscribed means a 4-byte extranonce1 in eight hex digits and 4 bytes of extranonce2; otherwise both are empty. */
  predicate ExtranonceSet(st: SessionState) {
    if st.subscribed then
      st.extranonce2Size == 4 && |st.extranonce1| == 8 && HexDecode(st.extranonce1).Some?
    else st.extranonce2Size == 0 && st.extranonce1 == ""
  }

  predicate StateOk(st: SessionState) {
    ExtranonceSet(st) && (st.versionRolling.Some? ==> SafeConfig(st.versionRolling.value))
  }

  lemma NextStateOk(st: SessionState, cmd: Command, counter: u32)
    requires StateOk(st)
    ensures StateOk(NextState(st, cmd, counter))
  {
    match cmd
    case Configure(requested) =>
      if requested.Some? {
        NegotiatedIsSafe(requested.value);
      }
    case Subscribe => HexU32Decodes(counter);
    case _ =>
  }

  /** The share came through a session's gate. */
  ghost predicate Gated(share: Share) {
    exists st: SessionState, sub: Submission :: StateOk(st) && Gate(st, sub) == Ok(share)
  }

  /**
   A share that came through a gate and passes the shape checks carries either 4 and 4 bytes of
   extranonce, from a subscribed session, or none at all; and it rolls only bits of the standard mask.
   */
  lemma GatedShareFills(share: Share)
    requires Gated(share) && ShapeError(share).None?
    ensures SessionExtranonce(share).Some?
    ensures |SessionExtranonce(share).value| == |share.extraNonce2| && |share.extraNonce2| in {0, 4}
    ensures RollsStandardBits(share)
  {
    var st, sub :| StateOk(st) && Gate(st, sub) == Ok(share);
    FillsState(st, sub);
  }

  /** Any version bits lie in a mask that lies in the standard one. */
  predicate RollsStandardBits(share: Share) {
    share.context.Some? && share.context.value.versionBits.Some? ==>
      && share.context.value.versionRollingMask.Some?
      && Within(share.context.value.versionRollingMask.value, ROLLING_MASK)
      && Within(share.context.value.versionBits.value, share.context.value.versionRollingMask.value)
  }

  /** The 4 bytes belong to subscribed sessions. */
  lemma FillsState(st: SessionState, sub: Submission)
    requires StateOk(st) && Gate(st, sub).Ok? && ShapeError(Gate(st, sub).value).None?
    ensures var share := Gate(st, sub).value;
            && SessionExtranonce(share).Some?
            && |SessionExtranonce(share).value| == |share.extraNonce2| == (if st.subscribed then 4 else 0)
            && RollsStandardBits(share)
  {
  }

  // The lines written

  /** The job of the last mining.notify. */
  function LastJob(out: seq<Message>): Option<Job>
    decreases |out|
  {
    if out == [] then None
    else match out[|out| - 1]
      case MiningNotify(job) => Some(job)
      case _ => LastJob(out[..|out| - 1])
  }

  /** The id in the last mining.notify. */
  function LastNotified(out: seq<Message>): Option<string> {
    if LastJob(out).Some? then Some(LastJob(out).value.jobId) else None
  }

  /** An authorize was answered since the last mining.notify. */
  predicate JustAuthorized(out: seq<Message>)
    decreases |out|
  {
    if out == [] then false
    else match out[|out| - 1]
      case MiningNotify(_) => false
      case Response(AuthorizeReply) => true
      case _ => JustAuthorized(out[..|out| - 1])
  }

  /** No mining.notify repeats the id of the one before it, unless an authorize was answered in between. */
  predicate PushesDiffer(out: seq<Message>)
    decreases |out|
  {
    if out == [] then true
    else
      var front := out[..|out| - 1];
      && PushesDiffer(front)
      && match out[|out| - 1]
         case MiningNotify(job) => JustAuthorized(front) || LastNotified(front) != Some(job.jobId)
         case _ => true
  }

  /** The job was sent to the miner, right after a difficulty. */
  predicate Announced(out: seq<Message>, job: Job) {
    exists k :: 0 < k < |out| && out[k - 1].SetDifficulty? && out[k] == MiningNotify(job)
  }

  predicate AllAnnounced(out: seq<Message>) {
    forall k :: 0 <= k < |out| && out[k].MiningNotify? ==> Announced(out, out[k].job)
  }

  predicate WrittenOk(c: Conn) {
    LastNotified(c.written) == c.state.lastNotifyJobId && PushesDiffer(c.written) && AllAnnounced(c.written)
  }

  lemma AnnouncedGrows(a: seq<Message>, b: seq<Message>, job: Job)
    requires a <= b && Announced(a, job)
    ensures Announced(b, job)
  {
    var k :| 0 < k < |a| && a[k - 1].SetDifficulty? && a[k] == MiningNotify(job);
    assert b[k - 1] == a[k - 1] && b[k] == a[k];
  }

  lemma AnnouncedSame(out: seq<Message>, m: Message)
    requires !m.MiningNotify? && AllAnnounced(out)
    ensures AllAnnounced(out + [m])
  {
    var next := out + [m];
    forall k | 0 <= k < |next| && next[k].MiningNotify? ensures Announced(next, next[k].job) {
      AnnouncedGrows(out, next, out[k].job);
    }
  }

  lemma OtherLine(out: seq<Message>, m: Message)
    requires !m.MiningNotify? && PushesDiffer(out)
    ensures var next := out + [m];
            && LastNotified(next) == LastNotified(out)
            && PushesDiffer(next)
            && (JustAuthorized(next) <==> JustAuthorized(out) || m == Response(AuthorizeReply))
  {
    var next := out + [m];
    assert next[..|next| - 1] == out && next[|next| - 1] == m;
  }

  lemma NotifyLine(out: seq<Message>, job: Job)
    requires out != [] && out[|out| - 1].SetDifficulty? && PushesDiffer(out) && AllAnnounced(out)
    requires JustAuthorized(out) || LastNotified(out) != Some(job.jobId)
    ensures var next := out + [MiningNotify(job)];
            LastNotified(next) == Some(job.jobId) && PushesDiffer(next) && AllAnnounced(next) && Announced(next, job)
  {
    var next := out + [MiningNotify(job)];
    assert next[..|next| - 1] == out;
    assert next[|out| - 1] == out[|out| - 1] && next[|out|] == MiningNotify(job);
    forall k | 0 <= k < |next| && next[k].MiningNotify? ensures Announced(next, next[k].job) {
      if k < |out| {
        AnnouncedGrows(out, next, out[k].job);
      }
    }
  }

  lemma DeliverKeeps(c: Conn, m: Message, ok: bool)
    requires WrittenOk(c) && !m.MiningNotify?
    ensures var d := Deliver(c, m, ok);
            && WrittenOk(d) && c.written <= d.written
            && (d.alive && c.alive ==>
                  (JustAuthorized(d.written) <==> JustAuthorized(c.written) || m == Response(AuthorizeReply)))
  {
    OtherLine(c.written, m);
    AnnouncedSame(c.written, m);
  }

  /** Pushing a job that is new to the miner, or right after an authorize, keeps the lines in order. */
  lemma PushKeeps(s: Settings, sh: Shared, c: Conn, job: Job, writes: Writes)
    requires WrittenOk(c) && c.alive && StateOk(c.state)
    requires JustAuthorized(c.written) || c.state.lastNotifyJobId != Some(job.jobId)
    ensures var (sh1, c1) := Push(s, sh, c, job, writes);
            && WrittenOk(c1) && StateOk(c1.state) && c.written <= c1.written && c1.pending == c.pending
            && Registers(sh, sh1, c1.written, job)
            && (c1.alive ==> c1.state.lastNotifyJobId == Some(job.jobId))
  {
    OtherLine(c.written, SetDifficulty(s.difficulty));
    AnnouncedSame(c.written, SetDifficulty(s.difficulty));
    if writes.difficulty {
      NotifyLine(c.written + [SetDifficulty(s.difficulty)], job);
    }
  }

  /** The registry is unchanged, or the job was registered and its two lines are among those written. */
  predicate Registers(sh: Shared, sh1: Shared, out: seq<Message>, job: Job) {
    sh1 == sh || (sh1 == sh.(registry := Registered(sh.registry, job)) && Announced(out, job))
  }

  lemma AuthorizeKeeps(s: Settings, sh: Shared, c: Conn, current: Option<Job>, writes: Writes)
    requires WrittenOk(c) && StateOk(c.state) && c.alive
    ensures var (sh1, c1) := OnAuthorize(s, sh, c, current, writes);
            && WrittenOk(c1) && StateOk(c1.state) && c.written <= c1.written && c1.pending == c.pending
            && (if current.Some? then Registers(sh, sh1, c1.written, current.value) else sh1 == sh)
            && (c1.alive && current.Some? ==> c1.state.lastNotifyJobId == Some(current.value.jobId))
  {
    DeliverKeeps(c, Response(AuthorizeReply), writes.response);
    var replied := Deliver(c, Response(AuthorizeReply), writes.response);
    if replied.alive && current.Some? {
      PushKeeps(s, sh, replied, current.value, writes);
    }
  }

  lemma ShareKeeps(s: Settings, sh: Shared, c: Conn, share: Share, ok: bool)
    requires WrittenOk(c)
    ensures var (sh1, c1) := OnShare(s, sh, c, share, ok);
            && WrittenOk(c1) && c1.state == c.state && c.written <= c1.written && sh1.registry == sh.registry
  {
    DeliverKeeps(c, Response(ShareReply(s.judge(sh.registry, share))), ok);
  }

  /** Requests keep the session's state and lines in order; only an authorize can register a job, the current one. */
  lemma CommandKeeps(s: Settings, sh: Shared, c: Conn, cmd: Command, current: Option<Job>, writes: Writes)
    requires WrittenOk(c) && StateOk(c.state) && c.alive
    ensures var (sh1, c1) := OnCommand(s, sh, c, cmd, current, writes);
            && WrittenOk(c1) && StateOk(c1.state) && c.written <= c1.written
            && (if cmd.Authorize? && current.Some? then Registers(sh, sh1, c1.written, current.value)
                else sh1.registry == sh.registry)
  {
    NextStateOk(c.state, cmd, sh.counter);
    var next := c.(state := NextState(c.state, cmd, sh.counter));
    match cmd
    case Configure(requested) => DeliverKeeps(next, Response(ConfigureReply(Negotiated(requested))), writes.response);
    case Subscribe => DeliverKeeps(next, Response(SubscribeReply(HexU32(sh.counter), 4)), writes.response);
    case Authorize(_) => AuthorizeKeeps(s, sh, next, current, writes);
    case Submit(sub) =>
      if Gate(c.state, sub).Ok? {
        ShareKeeps(s, sh, next, Gate(c.state, sub).value, writes.response);
      } else {
        DeliverKeeps(next, Response(Denied(Gate(c.state, sub).error)), writes.response);
      }
  }

  lemma BadLineKeeps(c: Conn, line: Line, ok: bool)
    requires WrittenOk(c) && !line.Parsed?
    ensures var c1 := OnBadLine(c, line, ok);
            WrittenOk(c1) && c1.state == c.state && c.written <= c1.written && c1.pending == c.pending
  {
    DeliverKeeps(c, Response(Complaint(line)), ok);
  }

  lemma FinishKeeps(s: Settings, sh: Shared, c: Conn, current: Option<Job>, ok: bool)
    requires WrittenOk(c) && c.pending.Some?
    ensures var (sh1, c1) := OnFinish(s, sh, c, current, ok);
            && WrittenOk(c1) && c1.state == c.state && c.written <= c1.written && c1.pending.None?
            && sh1.registry == sh.registry
  {
    DeliverKeeps(c.(pending := None), Response(ShareReply(ShareResult.Block)), ok);
  }

  /**
   A broadcast job either is registered with its lines written or leaves the registry alone; a
   live authorized session has its id as the last one.
   */
  lemma JobKeeps(s: Settings, sh: Shared, c: Conn, job: Job, writes: Writes)
    requires WrittenOk(c) && StateOk(c.state) && c.alive
    ensures var (sh1, c1) := OnJob(s, sh, c, job, writes);
            && WrittenOk(c1) && StateOk(c1.state) && c.written <= c1.written && c1.pending == c.pending
            && Registers(sh, sh1, c1.written, job)
            && (c1.alive && c1.state.authorizedWorker.Some? ==> c1.state.lastNotifyJobId == Some(job.jobId))
  {
    if c.state.authorizedWorker.Some? && c.state.lastNotifyJobId != Some(job.jobId) {
      PushKeeps(s, sh, c, job, writes);
    }
  }

  // What is written and what is registered

  /** Difficulty lines carry d, and only these jobs are announced. */
  predicate LineOk(m: Message, d: u32, jobs: seq<Job>) {
    match m
    case SetDifficulty(difficulty) => difficulty == d
    case MiningNotify(job) => job in jobs
    case _ => true
  }

  predicate LinesOk(out: seq<Message>, d: u32, jobs: seq<Job>) {
    forall k :: 0 <= k < |out| ==> LineOk(out[k], d, jobs)
  }

  lemma LinesStayOk(out: seq<Message>, d: u32, jobs: seq<Job>, more: seq<Job>)
    requires LinesOk(out, d, jobs) && jobs <= more
    ensures LinesOk(out, d, more)
  {
    forall k | 0 <= k < |out| ensures LineOk(out[k], d, more) {
      assert LineOk(out[k], d, jobs);
      if out[k].MiningNotify? {
        var j :| 0 <= j < |jobs| && jobs[j] == out[k].job;
        assert more[j] == jobs[j];
      }
    }
  }

  lemma DeliverLines(c: Conn, m: Message, ok: bool, d: u32, jobs: seq<Job>)
    requires LinesOk(c.written, d, jobs) && LineOk(m, d, jobs)
    ensures LinesOk(Deliver(c, m, ok).written, d, jobs)
  {
  }

  /** A push writes the session's difficulty, and it registers the job exactly when the session lives through it. */
  lemma PushLines(s: Settings, sh: Shared, c: Conn, job: Job, writes: Writes, jobs: seq<Job>)
    requires c.alive && LinesOk(c.written, s.difficulty, jobs)
    ensures var (sh1, c1) := Push(s, sh, c, job, writes);
            && LinesOk(c1.written, s.difficulty, if c1.alive then jobs + [job] else jobs)
            && sh1.registry == if c1.alive then Registered(sh.registry, job) else sh.registry
  {
    DeliverLines(c, SetDifficulty(s.difficulty), writes.difficulty, s.difficulty, jobs);
    var first := Deliver(c, SetDifficulty(s.difficulty), writes.difficulty);
    if first.alive && writes.notify {
      LinesStayOk(first.written, s.difficulty, jobs, jobs + [job]);
      assert (jobs + [job])[|jobs|] == job;
      DeliverLines(first, MiningNotify(job), true, s.difficulty, jobs + [job]);
    }
  }

  /** The same for a whole request: only an authorize that the session lives through registers a job. */
  lemma CommandLines(s: Settings, sh: Shared, c: Conn, cmd: Command, current: Option<Job>, writes: Writes,
                     jobs: seq<Job>)
    requires c.alive && LinesOk(c.written, s.difficulty, jobs)
    ensures var (sh1, c1) := OnCommand(s, sh, c, cmd, current, writes);
            var pushed := cmd.Authorize? && current.Some? && c1.alive;
            && LinesOk(c1.written, s.difficulty, if pushed then jobs + [current.value] else jobs)
            && sh1.registry == if pushed then Registered(sh.registry, current.value) else sh.registry
  {
    var next := c.(state := NextState(c.state, cmd, sh.counter));
    if cmd.Authorize? {
      DeliverLines(next, Response(AuthorizeReply), writes.response, s.difficulty, jobs);
      var replied := Deliver(next, Response(AuthorizeReply), writes.response);
      if replied.alive && current.Some? {
        PushLines(s, sh, replied, current.value, writes, jobs);
      }
    }
  }

  lemma JobLines(s: Settings, sh: Shared, c: Conn, job: Job, writes: Writes, jobs: seq<Job>)
    requires c.alive && LinesOk(c.written, s.difficulty, jobs)
    ensures var (sh1, c1) := OnJob(s, sh, c, job, writes);
            var pushed := Wants(c, job) && c1.alive;
            && LinesOk(c1.written, s.difficulty, if pushed then jobs + [job] else jobs)
            && sh1.registry == if pushed then Registered(sh.registry, job) else sh.registry
  {
    if Wants(c, job) {
      PushLines(s, sh, c, job, writes, jobs);
    }
  }
}
