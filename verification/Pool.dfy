/**
 The running pool: any number of sessions over one registry, share log, extranonce counter
 and job broadcast, with their steps interleaved in any order. A submit that finds a block is
 two steps, so that the registry may change between its two reads.
 */
module Pool {
  import opened Wrappers
  import opened Hex
  import opened Jobs
  import opened JobRegistry
  import opened ShareLog
  import opened CandidateSubmit
  import opened SubmitHandler
  import opened DomainMapper
  import opened Session
  import opened Broadcast
  import opened Poller

  datatype Peer = Peer(conn: Conn, cursor: nat)

  /** An accepted or block share, as judged: the session, the share, and the job it was judged against. */
  datatype Credit = Credit(session: nat, share: Share, job: Option<Job>, result: ShareResult)

  /**
   A block handed to the submitter: the share with the job it was judged against, and the job
   the block was built from.
   */
  datatype SentBlock = SentBlock(session: nat, won: Pending, job: Job, candidate: BlockCandidate)

  /** What happened so far. Nothing in the pool reads it. */
  datatype Past = Past(
    broadcasts: seq<Job>,
    authorized: set<(nat, string)>,
    issued: seq<(nat, string)>,
    attempts: seq<Attempt>,
    credits: seq<Credit>,
    sent: seq<SentBlock>,
    registered: seq<Job>)

  datatype World = World(shared: Shared, ring: Ring<Job>, polled: Key, peers: seq<Peer>, past: Past)

  const START_WORLD: World :=
    World(Shared(EMPTY_REGISTRY, [], 1, []), Ring([], 0), START, [], Past([], {}, [], [], [], [], []))

  /** `current` is what the job source answers during the step; `writes` which lines reach the miner. */
  datatype Event =
    | Connect
    | Poll(found: Option<Job>)
    | Request(i: nat, cmd: Command, current: Option<Job>, writes: Writes)
    | BadLine(i: nat, line: Line, writes: Writes)
    | Finish(i: nat, current: Option<Job>, writes: Writes)
    | Listen(i: nat, writes: Writes)
    | Hangup(i: nat)

  predicate Idle(w: World, i: nat) {
    i < |w.peers| && w.peers[i].conn.alive && w.peers[i].conn.pending.None?
  }

  predicate Deciding(w: World, i: nat) {
    i < |w.peers| && w.peers[i].conn.pending.Some?
  }

  predicate CanListen(w: World, i: nat) {
    Idle(w, i) && w.ring.Valid() && w.peers[i].cursor <= w.ring.sent
  }

  function NoteCommand(s: Settings, sh: Shared, st: SessionState, past: Past, i: nat, cmd: Command): Past {
    match cmd
    case Configure(_) => past
    case Subscribe => past.(issued := past.issued + [(i, HexU32(sh.counter))])
    case Authorize(username) => past.(authorized := past.authorized + {(i, username)})
    case Submit(sub) =>
      match Gate(st, sub)
      case Err(_) => past
      case Ok(share) => NoteShare(past, i, share, Lookup(sh.registry, share.jobId), s.judge(sh.registry, share))
  }

  function NoteShare(past: Past, i: nat, share: Share, job: Option<Job>, result: ShareResult): Past {
    past.(attempts := past.attempts + [AttemptOf(share, result)],
          credits := if result.IsAccepted() then past.credits + [Credit(i, share, job, result)] else past.credits)
  }

  function NoteFinish(s: Settings, r: Registry, past: Past, i: nat, won: Pending, current: Option<Job>): Past {
    match (Lookup(r, won.share.jobId), MaybeCandidate(s.assemble, r, won.share, current))
    case (Some(job), Some(candidate)) => past.(sent := past.sent + [SentBlock(i, won, job, candidate)])
    case _ => past
  }

  function Moved(w: World, i: nat, sh: Shared, peer: Peer, past: Past): World
    requires i < |w.peers|
  {
    w.(shared := sh, peers := w.peers[i := peer], past := past)
  }

  function OnConnect(w: World): World {
    w.(peers := w.peers + [Peer(NEW_CONN, w.ring.sent)])
  }

  function OnPoll(w: World, found: Option<Job>): World {
    var (key, broadcast) := Polled(w.polled, found);
    match broadcast
    case None => w.(polled := key)
    case Some(job) =>
      w.(polled := key, ring := Send(w.ring, job), past := w.past.(broadcasts := w.past.broadcasts + [job]))
  }

  function OnRequest(s: Settings, w: World, i: nat, cmd: Command, current: Option<Job>, writes: Writes): World
    requires Idle(w, i)
  {
    var p := w.peers[i];
    var (sh, c) := OnCommand(s, w.shared, p.conn, cmd, current, writes);
    var past := NoteCommand(s, w.shared, p.conn.state, w.past, i, cmd);
    Moved(w, i, sh, p.(conn := c), NoteRegistered(past, PushedBy(cmd, current, c)))
  }

  /** The job an authorize pushed, if the session lived through its writes. */
  function PushedBy(cmd: Command, current: Option<Job>, after: Conn): Option<Job> {
    if cmd.Authorize? && after.alive then current else None
  }

  function NoteRegistered(past: Past, job: Option<Job>): Past {
    past.(registered := Appended(past.registered, job))
  }

  function OnComplaint(w: World, i: nat, line: Line, writes: Writes): World
    requires Idle(w, i) && !line.Parsed?
  {
    var p := w.peers[i];
    Moved(w, i, w.shared, p.(conn := OnBadLine(p.conn, line, writes.response)), w.past)
  }

  function OnDecided(s: Settings, w: World, i: nat, current: Option<Job>, writes: Writes): World
    requires Deciding(w, i)
  {
    var p := w.peers[i];
    var (sh, c) := OnFinish(s, w.shared, p.conn, current, writes.response);
    Moved(w, i, sh, p.(conn := c), NoteFinish(s, w.shared.registry, w.past, i, p.conn.pending.value, current))
  }

  function OnListen(s: Settings, w: World, i: nat, writes: Writes): World
    requires CanListen(w, i)
  {
    var p := w.peers[i];
    var (got, next) := Receive(w.ring, p.cursor);
    match got
    case Item(job) =>
      var (sh, c) := OnJob(s, w.shared, p.conn, job, writes);
      Moved(w, i, sh, Peer(c, next), NoteRegistered(w.past, PushedJob(p.conn, job, c)))
    case _ => Moved(w, i, w.shared, p.(cursor := next), w.past)
  }

  /** The broadcast job, if it was pushed and the session lived through its writes. */
  function PushedJob(before: Conn, job: Job, after: Conn): Option<Job> {
    if Wants(before, job) && after.alive then Some(job) else None
  }

  /** One step of the pool. An event that is not possible in a state changes nothing. */
  function Step(s: Settings, w: World, e: Event): World {
    match e
    case Connect => OnConnect(w)
    case Poll(found) => OnPoll(w, found)
    case Request(i, cmd, current, writes) => if Idle(w, i) then OnRequest(s, w, i, cmd, current, writes) else w
    case BadLine(i, line, writes) =>
      if Idle(w, i) && !line.Parsed? then OnComplaint(w, i, line, writes) else w
    case Finish(i, current, writes) => if Deciding(w, i) then OnDecided(s, w, i, current, writes) else w
    case Listen(i, writes) => if CanListen(w, i) then OnListen(s, w, i, writes) else w
    case Hangup(i) =>
      if Idle(w, i) then Moved(w, i, w.shared, w.peers[i].(conn := w.peers[i].conn.(alive := false)), w.past) else w
  }

  function Run(s: Settings, w: World, events: seq<Event>): World
    decreases |events|
  {
    if events == [] then w else Run(s, Step(s, w, events[0]), events[1..])
  }

  lemma {:induction false} RunSplit(s: Settings, w: World, a: seq<Event>, b: seq<Event>)
    ensures Run(s, w, a + b) == Run(s, Run(s, w, a), b)
    decreases |a|
  {
    if a == [] {
      assert a + b == b;
    } else {
      RunSplit(s, Step(s, w, a[0]), a[1..], b);
      assert (a + b)[1..] == a[1..] + b;
    }
  }
}
