/**
 One Stratum session: its state, what it writes to the miner, and how each request and each
 broadcast job changes both. A write that fails ends the session.
 */
module Session {
  import opened Bytes
  import opened Wrappers
  import opened Hex
  import opened Jobs
  import opened JobRegistry
  import opened ShareLog
  import opened ShareProcessor
  import opened CandidateSubmit
  import opened SubmitHandler
  import opened VersionRolling
  import opened DomainMapper

  datatype SessionState = SessionState(
    authorizedWorker: Option<string>,
    subscribed: bool,
    extranonce1: string,
    extranonce2Size: u32,
    versionRolling: Option<RollingConfig>,
    lastNotifyJobId: Option<string>)

  const DEFAULT_STATE: SessionState := SessionState(None, false, "", 0, None, None)

  datatype Reply =
    | ConfigureReply(negotiated: Option<RollingConfig>)
    | SubscribeReply(extranonce1: string, extranonce2Size: u32)
    | AuthorizeReply
    | ShareReply(result: ShareResult)
    | Denied(reason: string)
    | ErrorReply(code: int, message: string)

  /** A complete line written to the miner. */
  datatype Message = Response(reply: Reply) | SetDifficulty(difficulty: u32) | MiningNotify(job: Job)

  /** A share judged to be a block, with the job it was judged against, whose candidate is not made yet. */
  datatype Pending = Pending(share: Share, job: Job)

  datatype Conn = Conn(state: SessionState, written: seq<Message>, alive: bool, pending: Option<Pending>)

  const NEW_CONN: Conn := Conn(DEFAULT_STATE, [], true, None)

  /** What all sessions share, the broadcast channel aside. */
  datatype Shared = Shared(registry: Registry, buffer: seq<Attempt>, counter: u32, submitted: seq<BlockCandidate>)

  /** The pool's difficulty, how it judges shares, and how it assembles blocks. */
  datatype Settings = Settings(difficulty: u32, judge: (Registry, Share) -> ShareResult, assemble: Assembler)

  /** Which of a step's writes reach the miner. */
  datatype Writes = Writes(response: bool, difficulty: bool, notify: bool)

  // Pieces of a step

  function Deliver(c: Conn, m: Message, ok: bool): Conn {
    if ok then c.(written := c.written + [m]) else c.(alive := false)
  }

  function Increment(n: u32): u32 {
    (n + 1) % 0x1_0000_0000
  }

  /** `send_job_notify`: difficulty, then job. */
  function SendNotify(c: Conn, difficulty: u32, job: Job, writes: Writes): Conn {
    var first := Deliver(c, SetDifficulty(difficulty), writes.difficulty);
    if first.alive then Deliver(first, MiningNotify(job), writes.notify) else first
  }

  /** After both lines are written the session remembers the id and the job is registered. */
  function Push(s: Settings, sh: Shared, c: Conn, job: Job, writes: Writes): (Shared, Conn) {
    var sent := SendNotify(c, s.difficulty, job, writes);
    if sent.alive then
      (sh.(registry := Registered(sh.registry, job)), sent.(state := sent.state.(lastNotifyJobId := Some(job.jobId))))
    else (sh, sent)
  }

  // Requests

  function Negotiated(requested: Option<RollingConfig>): Option<RollingConfig> {
    if requested.Some? then Negotiate(requested.value) else None
  }

  /** How a request changes the session's own state. */
  function NextState(st: SessionState, cmd: Command, counter: u32): SessionState {
    match cmd
    case Configure(requested) => st.(versionRolling := Negotiated(requested))
    case Subscribe => st.(subscribed := true, extranonce1 := HexU32(counter), extranonce2Size := 4)
    case Authorize(username) => st.(authorizedWorker := Some(username))
    case Submit(_) => st
  }

  /** The checks on a submit before its share is processed, and the share with the session's context. */
  function Gate(st: SessionState, sub: Submission): Result<Share, string> {
    if st.authorizedWorker.None? then Err("worker not authorized")
    else if st.authorizedWorker.value != sub.username then Err("username mismatch")
    else if sub.versionBits.Some? && st.versionRolling.None? then Err("version rolling not negotiated")
    else Ok(ShareOf(st, sub))
  }

  function ShareOf(st: SessionState, sub: Submission): Share {
    var mask := if st.versionRolling.Some? then Some(st.versionRolling.value.mask) else None;
    Share(sub.jobId, sub.username, sub.extraNonce2, sub.ntime, sub.nonce,
          Some(ShareContext(Some(st.extranonce2Size), Some(st.extranonce1), mask, sub.versionBits)))
  }

  /** A share that passed the gate: judged and recorded; a block waits for its candidate before the reply. */
  function OnShare(s: Settings, sh: Shared, c: Conn, share: Share, ok: bool): (Shared, Conn) {
    var result := s.judge(sh.registry, share);
    var job := Lookup(sh.registry, share.jobId);
    var recorded := sh.(buffer := Recorded(sh.buffer, AttemptOf(share, result)));
    if result.Block? && job.Some? then (recorded, c.(pending := Some(Pending(share, job.value))))
    else (recorded, Deliver(c, Response(ShareReply(result)), ok))
  }

  function OnAuthorize(s: Settings, sh: Shared, c: Conn, current: Option<Job>, writes: Writes): (Shared, Conn) {
    var replied := Deliver(c, Response(AuthorizeReply), writes.response);
    if replied.alive && current.Some? then Push(s, sh, replied, current.value, writes) else (sh, replied)
  }

  /** One request, up to the point where a block share's candidate would be made. */
  function OnCommand(s: Settings, sh: Shared, c: Conn, cmd: Command, current: Option<Job>, writes: Writes)
    : (Shared, Conn)
  {
    var next := c.(state := NextState(c.state, cmd, sh.counter));
    match cmd
    case Configure(requested) =>
      (sh, Deliver(next, Response(ConfigureReply(Negotiated(requested))), writes.response))
    case Subscribe =>
      (sh.(counter := Increment(sh.counter)),
       Deliver(next, Response(SubscribeReply(HexU32(sh.counter), 4)), writes.response))
    case Authorize(_) => OnAuthorize(s, sh, next, current, writes)
    case Submit(sub) =>
      match Gate(c.state, sub)
      case Err(reason) => (sh, Deliver(next, Response(Denied(reason)), writes.response))
      case Ok(share) => OnShare(s, sh, next, share, writes.response)
  }

  /** The error reply to a line that is no command. */
  function Complaint(line: Line): Reply
    requires !line.Parsed?
  {
    match line
    case NotJson => ErrorReply(-32700, "Parse error")
    case UnknownMethod => ErrorReply(-32601, "Method not found")
    case BadFields(e) => Denied(e.name)
  }

  /** A line that is no command is answered and changes nothing else. */
  function OnBadLine(c: Conn, line: Line, ok: bool): Conn
    requires !line.Parsed?
  {
    Deliver(c, Response(Complaint(line)), ok)
  }

  /** The rest of a block share's submit: a second look at the registry, the submission, the reply. */
  function OnFinish(s: Settings, sh: Shared, c: Conn, current: Option<Job>, ok: bool): (Shared, Conn)
    requires c.pending.Some?
  {
    var candidate := MaybeCandidate(s.assemble, sh.registry, c.pending.value.share, current);
    (sh.(submitted := Appended(sh.submitted, candidate)),
     Deliver(c.(pending := None), Response(ShareReply(Block)), ok))
  }

  /** One job received from the broadcast channel. */
  function OnJob(s: Settings, sh: Shared, c: Conn, job: Job, writes: Writes): (Shared, Conn) {
    if Wants(c, job) then Push(s, sh, c, job, writes) else (sh, c)
  }

  /** The session is authorized and the job's id is not the one it was last notified of. */
  predicate Wants(c: Conn, job: Job) {
    c.state.authorizedWorker.Some? && c.state.lastNotifyJobId != Some(job.jobId)
  }

  /** A whole request with nothing in between. */
  function Served(s: Settings, sh: Shared, c: Conn, cmd: Command, current: Option<Job>, writes: Writes)
    : (Shared, Conn)
  {
    var (sh1, c1) := OnCommand(s, sh, c, cmd, current, writes);
    if c1.pending.Some? then OnFinish(s, sh1, c1, current, writes.response) else (sh1, c1)
  }

  /** A whole line with nothing in between. */
  function ServedLine(s: Settings, sh: Shared, c: Conn, line: Line, current: Option<Job>, writes: Writes)
    : (Shared, Conn)
  {
    if line.Parsed? then Served(s, sh, c, line.cmd, current, writes) else (sh, OnBadLine(c, line, writes.response))
  }

  // The imperative session

  /** `NEXT_EXTRANONCE1`. */
  class ExtranonceCounter {
    var next: u32

    constructor ()
      ensures next == 1
    {
      next := 1;
    }

    method FetchAdd() returns (n: u32)
      modifies this
      ensures n == old(next) && next == Increment(n)
    {
      n := next;
      next := (next + 1) % 0x1_0000_0000;
    }
  }

  class Sv1Session {
    const handler: Sv1SessionHandler
    const counter: ExtranonceCounter
    const difficulty: u32
    var state: SessionState
    var written: seq<Message>
    var alive: bool

    ghost predicate Valid()
      reads this, handler, handler.registry
    {
      handler.Valid()
    }

    function View(): Conn
      reads this
    {
      Conn(state, written, alive, None)
    }

    function SharedView(): Shared
      reads handler, handler.registry, handler.buffer, counter
    {
      Shared(handler.registry.State(), handler.buffer.entries, counter.next, handler.submitted)
    }

    function Config(): Settings {
      Settings(difficulty, Judge(handler.h, handler.processor.difficulty), AssembleWith(handler.h))
    }

    constructor (handler: Sv1SessionHandler, counter: ExtranonceCounter, difficulty: u32)
      requires handler.Valid()
      ensures Valid() && View() == NEW_CONN
      ensures this.handler == handler && this.counter == counter && this.difficulty == difficulty
    {
      this.handler, this.counter, this.difficulty := handler, counter, difficulty;
      state, written, alive := DEFAULT_STATE, [], true;
    }

    method Write(m: Message, ok: bool)
      modifies `written, `alive
      ensures written == (if ok then old(written) + [m] else old(written))
      ensures alive == (old(alive) && ok)
    {
      if ok {
        written := written + [m];
      } else {
        alive := false;
      }
    }

    /** `send_job_notify`, and what the session does after it. */
    method PushJob(job: Job, writes: Writes)
      requires Valid() && alive
      modifies this, handler.registry
      ensures Valid()
      ensures (SharedView(), View()) == old(Push(Config(), SharedView(), View(), job, writes))
    {
      Write(SetDifficulty(difficulty), writes.difficulty);
      if !alive {
        return;
      }
      Write(MiningNotify(job), writes.notify);
      if !alive {
        return;
      }
      state := state.(lastNotifyJobId := Some(job.jobId));
      handler.OnNotifySent(job);
    }

    /** `dispatch_request`: the job to notify, and the reply. */
    method Dispatch(parsed: Result<Option<Command>, FieldError>, current: Option<Job>)
      returns (notify: Option<Job>, reply: Reply)
      requires Valid()
      modifies `state, counter, handler`submitted, handler.buffer
      ensures Valid()
      ensures LineOf(parsed).Parsed? ==>
                && state == NextState(old(state), LineOf(parsed).cmd, old(counter.next))
                && notify == (if LineOf(parsed).cmd.Authorize? then current else None)
                && (reply, SharedView()) == old(Dispatched(Config(), SharedView(), state, LineOf(parsed).cmd, current))
      ensures !LineOf(parsed).Parsed? ==>
                && state == old(state) && notify == None
                && (reply, SharedView()) == (Complaint(LineOf(parsed)), old(SharedView()))
    {
      notify := None;
      if parsed.Err? {
        reply := Denied(parsed.error.name);
        return;
      }
      if parsed.value.None? {
        reply := ErrorReply(-32601, "Method not found");
        return;
      }
      notify, reply := DispatchCommand(parsed.value.value, current);
    }

    /** The match over the commands in `dispatch_request`. */
    method DispatchCommand(cmd: Command, current: Option<Job>) returns (notify: Option<Job>, reply: Reply)
      requires Valid()
      modifies `state, counter, handler`submitted, handler.buffer
      ensures Valid()
      ensures state == NextState(old(state), cmd, old(counter.next))
      ensures notify == (if cmd.Authorize? then current else None)
      ensures (reply, SharedView()) == old(Dispatched(Config(), SharedView(), state, cmd, current))
    {
      notify := None;
      match cmd
      case Configure(requested) =>
        var negotiated := if requested.Some? then Negotiate(requested.value) else None;
        state := state.(versionRolling := negotiated);
        reply := ConfigureReply(negotiated);
      case Subscribe =>
        var en1 := counter.FetchAdd();
        var hex := HexU32(en1);
        state := state.(subscribed := true, extranonce1 := hex, extranonce2Size := 4);
        reply := SubscribeReply(hex, 4);
      case Authorize(username) =>
        state := state.(authorizedWorker := Some(username));
        notify := current;
        reply := AuthorizeReply;
      case Submit(sub) =>
        if state.authorizedWorker.None? {
          reply := Denied("worker not authorized");
        } else if state.authorizedWorker.value != sub.username {
          reply := Denied("username mismatch");
        } else if sub.versionBits.Some? && state.versionRolling.None? {
          reply := Denied("version rolling not negotiated");
        } else {
          var result := handler.OnSubmit(ShareOf(state, sub), current);
          reply := ShareReply(result);
        }
    }

    /** The request arm of `handle_sv1_session`, for a line that may not even be JSON. */
    method HandleRequest(request: Option<Result<Option<Command>, FieldError>>, current: Option<Job>, writes: Writes)
      requires Valid() && alive
      modifies this, counter, handler`submitted, handler.buffer, handler.registry
      ensures Valid()
      ensures (SharedView(), View())
           == old(ServedLine(Config(), SharedView(), View(), LineRead(request), current, writes))
    {
      if request.None? {
        Write(Response(ErrorReply(-32700, "Parse error")), writes.response);
        return;
      }
      ghost var line := LineOf(request.value);
      if line.Parsed? {
        ServedIsDispatched(Config(), SharedView(), View(), line.cmd, current, writes);
      }
      var notify, reply := Dispatch(request.value, current);
      Write(Response(reply), writes.response);
      if !alive {
        return;
      }
      if notify.Some? {
        PushJob(notify.value, writes);
      }
    }

    /** The broadcast arm of `handle_sv1_session`. */
    method HandleBroadcast(job: Job, writes: Writes)
      requires Valid() && alive
      modifies this, handler.registry
      ensures Valid()
      ensures (SharedView(), View()) == old(OnJob(Config(), SharedView(), View(), job, writes))
    {
      if state.authorizedWorker.None? {
        return;
      }
      if state.lastNotifyJobId == Some(job.jobId) {
        return;
      }
      PushJob(job, writes);
    }
  }

  /** The line that was read: nothing when it was not JSON. */
  function LineRead(request: Option<Result<Option<Command>, FieldError>>): Line {
    if request.Some? then LineOf(request.value) else NotJson
  }

  /** The reply to a request and what it does to the shared state, the job notification aside. */
  function Dispatched(s: Settings, sh: Shared, st: SessionState, cmd: Command, current: Option<Job>): (Reply, Shared) {
    match cmd
    case Configure(requested) => (ConfigureReply(Negotiated(requested)), sh)
    case Subscribe => (SubscribeReply(HexU32(sh.counter), 4), sh.(counter := Increment(sh.counter)))
    case Authorize(_) => (AuthorizeReply, sh)
    case Submit(sub) =>
      match Gate(st, sub)
      case Err(reason) => (Denied(reason), sh)
      case Ok(share) =>
        var result := s.judge(sh.registry, share);
        var recorded := sh.(buffer := Recorded(sh.buffer, AttemptOf(share, result)));
        (ShareReply(result),
         if result.Block? then
           recorded.(submitted := Appended(sh.submitted, MaybeCandidate(s.assemble, sh.registry, share, current)))
         else recorded)
  }

  /** Dispatching, replying and notifying in that order is the whole request. */
  lemma ServedIsDispatched(s: Settings, sh: Shared, c: Conn, cmd: Command, current: Option<Job>, writes: Writes)
    requires c.pending.None?
    ensures var (reply, sh1) := Dispatched(s, sh, c.state, cmd, current);
            var replied := Deliver(c.(state := NextState(c.state, cmd, sh.counter)), Response(reply), writes.response);
            Served(s, sh, c, cmd, current, writes)
            == if replied.alive && cmd.Authorize? && current.Some? then Push(s, sh1, replied, current.value, writes)
               else (sh1, replied)
  {
  }
}
