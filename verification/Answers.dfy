/** What each line from a miner changes and is answered with, when its writes succeed. */
module Answers {
  import opened Bytes
  import opened Wrappers
  import opened Hex
  import opened Jobs
  import opened JobRegistry
  import opened ShareLog
  import opened VersionRolling
  import opened DomainMapper
  import opened Session

  const ALL: Writes := Writes(true, true, true)

  /** The share is the submission with what the session was given: extranonce, its size, and the negotiated mask. */
  predicate Carries(share: Share, st: SessionState, sub: Submission) {
    && share.jobId == sub.jobId && share.workerId == sub.username && share.extraNonce2 == sub.extraNonce2
    && share.ntime == sub.ntime && share.nonce == sub.nonce && share.context.Some?
    && var ctx := share.context.value;
    && ctx.expectedExtraNonce2Len == Some(st.extranonce2Size) && ctx.extranonce1Hex == Some(st.extranonce1)
    && ctx.versionBits == sub.versionBits
    && ctx.versionRollingMask.Some? == st.versionRolling.Some?
    && (st.versionRolling.Some? ==> ctx.versionRollingMask.value == st.versionRolling.value.mask)
  }

  /**
   A submission is let through if and only if the session is authorized under the same name and
   any version bits were negotiated; the reply names the first of these that fails.
   */
  lemma GateExactly(st: SessionState, sub: Submission)
    ensures Gate(st, sub).Ok? <==>
              && st.authorizedWorker == Some(sub.username)
              && (sub.versionBits.Some? ==> st.versionRolling.Some?)
    ensures Gate(st, sub).Ok? ==> Carries(Gate(st, sub).value, st, sub)
    ensures Gate(st, sub).Err? ==>
              Gate(st, sub).error
              == if st.authorizedWorker.None? then "worker not authorized"
                 else if st.authorizedWorker.value != sub.username then "username mismatch"
                 else "version rolling not negotiated"
  {
  }

  /** The session lives on with this state and these lines more. */
  predicate Continues(c: Conn, c1: Conn, st: SessionState, lines: seq<Message>) {
    c1.alive && c1.pending.None? && c1.state == st && c1.written == c.written + lines
  }

  /** A configure sets what may be rolled to what the reply says; one without version rolling ends it. */
  lemma ConfigureAnswers(s: Settings, sh: Shared, c: Conn, requested: Option<RollingConfig>, current: Option<Job>)
    requires c.alive && c.pending.None?
    ensures var (sh1, c1) := Served(s, sh, c, Configure(requested), current, ALL);
            var rolling := if requested.Some? then Negotiate(requested.value) else None;
            sh1 == sh && Continues(c, c1, c.state.(versionRolling := rolling), [Response(ConfigureReply(rolling))])
  {
  }

  /** A subscribe hands out the counter as eight digits, with 4 bytes for the miner, and advances it. */
  lemma SubscribeAnswers(s: Settings, sh: Shared, c: Conn, current: Option<Job>)
    requires c.alive && c.pending.None?
    ensures var (sh1, c1) := Served(s, sh, c, Subscribe, current, ALL);
            var text := c1.state.extranonce1;
            && sh1 == sh.(counter := if sh.counter == 0xffff_ffff then 0 else sh.counter + 1)
            && |text| == 8 && HexDecode(text) == Some(BeBytes(sh.counter, 4))
            && Continues(c, c1, c.state.(subscribed := true, extranonce1 := text, extranonce2Size := 4),
                         [Response(SubscribeReply(text, 4))])
  {
    HexU32Decodes(sh.counter);
  }

  /** An authorize is answered first; a job, if the source has one, follows with the difficulty and is registered. */
  lemma AuthorizeAnswers(s: Settings, sh: Shared, c: Conn, username: string, current: Option<Job>)
    requires c.alive && c.pending.None?
    ensures var (sh1, c1) := Served(s, sh, c, Authorize(username), current, ALL);
            var st := c.state.(authorizedWorker := Some(username));
            if current.Some? then
              && sh1 == sh.(registry := Registered(sh.registry, current.value))
              && Continues(c, c1, st.(lastNotifyJobId := Some(current.value.jobId)),
                           [Response(AuthorizeReply), SetDifficulty(s.difficulty), MiningNotify(current.value)])
            else sh1 == sh && Continues(c, c1, st, [Response(AuthorizeReply)])
  {
    var sent := c.written + [Response(AuthorizeReply)] + [SetDifficulty(s.difficulty)];
    if current.Some? {
      assert sent + [MiningNotify(current.value)]
          == c.written + [Response(AuthorizeReply), SetDifficulty(s.difficulty), MiningNotify(current.value)];
    }
  }

  /** The log's entry for a share names its worker, its job, whether it was accepted, and why not. */
  predicate Logs(a: Attempt, share: Share, result: ShareResult) {
    && a.workerId == share.workerId && a.jobId == share.jobId
    && a.accepted == result.IsAccepted() && a.rejectReason == result.RejectReason()
  }

  /** A share that is let through is answered with its verdict and logged; a block is answered too, when it is done. */
  lemma ShareAnswers(s: Settings, sh: Shared, c: Conn, sub: Submission, share: Share, current: Option<Job>)
    requires c.alive && c.pending.None? && Gate(c.state, sub) == Ok(share)
    ensures var (sh1, c1) := Served(s, sh, c, Submit(sub), current, ALL);
            var result := s.judge(sh.registry, share);
            && Continues(c, c1, c.state, [Response(ShareReply(result))])
            && sh1.registry == sh.registry && sh1.counter == sh.counter
            && sh1.buffer != [] && Logs(sh1.buffer[|sh1.buffer| - 1], share, result)
            && sh1.buffer[..|sh1.buffer| - 1] == (if |sh.buffer| >= 100 then sh.buffer[1..] else sh.buffer)
            && (!result.Block? ==> sh1.submitted == sh.submitted)
  {
  }

  /** A share that is not let through is denied and leaves no other trace. */
  lemma DenialAnswers(s: Settings, sh: Shared, c: Conn, sub: Submission, current: Option<Job>)
    requires c.alive && c.pending.None? && Gate(c.state, sub).Err?
    ensures var (sh1, c1) := Served(s, sh, c, Submit(sub), current, ALL);
            sh1 == sh && Continues(c, c1, c.state, [Response(Denied(Gate(c.state, sub).error))])
  {
  }

  /**
   A broadcast job is sent with the difficulty, remembered and registered, unless the session is
   not authorized or has that id already.
   */
  lemma BroadcastAnswers(s: Settings, sh: Shared, c: Conn, job: Job)
    requires c.alive && c.pending.None?
    ensures var (sh1, c1) := OnJob(s, sh, c, job, ALL);
            if c.state.authorizedWorker.None? || c.state.lastNotifyJobId == Some(job.jobId) then sh1 == sh && c1 == c
            else
              && sh1 == sh.(registry := Registered(sh.registry, job))
              && Continues(c, c1, c.state.(lastNotifyJobId := Some(job.jobId)),
                           [SetDifficulty(s.difficulty), MiningNotify(job)])
  {
    assert c.written + [SetDifficulty(s.difficulty)] + [MiningNotify(job)]
        == c.written + [SetDifficulty(s.difficulty), MiningNotify(job)];
  }

  /** What is read, by name: a command, or what is wrong with the line. */
  lemma LineExactly(request: Option<Result<Option<Command>, FieldError>>)
    ensures LineRead(request)
         == if request.None? then NotJson
            else if request.value.Err? then BadFields(request.value.error)
            else if request.value.value.None? then UnknownMethod
            else Parsed(request.value.value.value)
  {
  }

  /** A line that is no command gets an error, by what is wrong with it, and leaves no other trace. */
  lemma BadLineAnswers(s: Settings, sh: Shared, c: Conn, request: Option<Result<Option<Command>, FieldError>>,
                       current: Option<Job>)
    requires c.alive && c.pending.None?
    requires request.None? || request.value.Err? || request.value.value.None?
    ensures var (sh1, c1) := ServedLine(s, sh, c, LineRead(request), current, ALL);
            var reply := if request.None? then ErrorReply(-32700, "Parse error")
                         else if request.value.Err? then Denied(request.value.error.name)
                         else ErrorReply(-32601, "Method not found");
            sh1 == sh && Continues(c, c1, c.state, [Response(reply)])
  {
  }
}
