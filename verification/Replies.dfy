/** What miners are told about their shares, against what the pool credits. */
module Replies {
  import opened Wrappers
  import opened Hex
  import opened Jobs
  import opened JobRegistry
  import opened DomainMapper
  import opened Session
  import opened Broadcast
  import opened Pool

  /** The result a line reports, if it is an accepting one. */
  function Reported(m: Message): seq<ShareResult> {
    match m
    case Response(ShareReply(result)) => if result.IsAccepted() then [result] else []
    case _ => []
  }

  /** The accepting share replies among these lines, in order. */
  function AcceptedReplies(out: seq<Message>): seq<ShareResult>
    decreases |out|
  {
    if out == [] then [] else AcceptedReplies(out[..|out| - 1]) + Reported(out[|out| - 1])
  }

  /** The results a session was credited with, in order. */
  function ResultsOf(credits: seq<Credit>, i: nat): seq<ShareResult>
    decreases |credits|
  {
    if credits == [] then []
    else
      var last := credits[|credits| - 1];
      ResultsOf(credits[..|credits| - 1], i) + if last.session == i then [last.result] else []
  }

  /** What the miner was told, and what it is about to be told when the submit finishes. */
  function Told(c: Conn): seq<ShareResult> {
    AcceptedReplies(c.written) + if c.pending.Some? then [ShareResult.Block] else []
  }

  /** A live session is told every credit; a session that ended may have missed its last one. */
  predicate Matches(c: Conn, results: seq<ShareResult>) {
    && (c.pending.Some? ==> c.alive)
    && if c.alive then Told(c) == results else Told(c) <= results && |results| <= |Told(c)| + 1
  }

  ghost predicate RepliesOk(w: World) {
    && (forall k :: 0 <= k < |w.past.credits| ==> w.past.credits[k].session < |w.peers|)
    && (forall i :: 0 <= i < |w.peers| ==> Matches(w.peers[i].conn, ResultsOf(w.past.credits, i)))
  }

  lemma AcceptedSnoc(out: seq<Message>, m: Message)
    ensures AcceptedReplies(out + [m]) == AcceptedReplies(out) + Reported(m)
  {
    assert (out + [m])[..|out|] == out;
  }

  lemma ResultsSnoc(credits: seq<Credit>, c: Credit, i: nat)
    ensures ResultsOf(credits + [c], i) == ResultsOf(credits, i) + if c.session == i then [c.result] else []
  {
    assert (credits + [c])[..|credits|] == credits;
  }

  lemma {:induction false} NoResultsYet(credits: seq<Credit>, n: nat)
    requires forall k :: 0 <= k < |credits| ==> credits[k].session < n
    ensures ResultsOf(credits, n) == []
    decreases |credits|
  {
    if credits != [] {
      NoResultsYet(credits[..|credits| - 1], n);
    }
  }

  // One session

  /** A line that reports no accepted share tells nothing new. */
  lemma QuietLine(c: Conn, m: Message, ok: bool)
    requires Reported(m) == []
    ensures Told(Deliver(c, m, ok)) == Told(c)
  {
    AcceptedSnoc(c.written, m);
    assert AcceptedReplies(c.written) + [] == AcceptedReplies(c.written);
  }

  lemma PushTellsNothing(s: Settings, sh: Shared, c: Conn, job: Job, writes: Writes)
    requires c.alive
    ensures Told(Push(s, sh, c, job, writes).1) == Told(c) && Push(s, sh, c, job, writes).1.pending == c.pending
  {
    QuietLine(c, SetDifficulty(s.difficulty), writes.difficulty);
    QuietLine(Deliver(c, SetDifficulty(s.difficulty), writes.difficulty), MiningNotify(job), writes.notify);
  }

  /** The results a command credits its session with. */
  function CreditedBy(s: Settings, sh: Shared, st: SessionState, cmd: Command): seq<ShareResult> {
    if cmd.Submit? && Gate(st, cmd.submission).Ok? then
      var result := s.judge(sh.registry, Gate(st, cmd.submission).value);
      if result.IsAccepted() then [result] else []
    else []
  }

  lemma CommandTells(s: Settings, sh: Shared, c: Conn, cmd: Command, current: Option<Job>, writes: Writes,
                     results: seq<ShareResult>)
    requires c.alive && c.pending.None? && Matches(c, results)
    ensures Matches(OnCommand(s, sh, c, cmd, current, writes).1, results + CreditedBy(s, sh, c.state, cmd))
  {
    var next := c.(state := NextState(c.state, cmd, sh.counter));
    assert Told(next) == Told(c) && results + [] == results;
    match cmd
    case Configure(requested) => QuietLine(next, Response(ConfigureReply(Negotiated(requested))), writes.response);
    case Subscribe => QuietLine(next, Response(SubscribeReply(HexU32(sh.counter), 4)), writes.response);
    case Authorize(_) =>
      QuietLine(next, Response(AuthorizeReply), writes.response);
      var replied := Deliver(next, Response(AuthorizeReply), writes.response);
      if replied.alive && current.Some? {
        PushTellsNothing(s, sh, replied, current.value, writes);
      }
    case Submit(sub) =>
      if Gate(c.state, sub).Ok? {
        ShareTells(s, sh, next, Gate(c.state, sub).value, writes.response, results);
      } else {
        QuietLine(next, Response(Denied(Gate(c.state, sub).error)), writes.response);
      }
  }

  lemma ShareTells(s: Settings, sh: Shared, c: Conn, share: Share, ok: bool, results: seq<ShareResult>)
    requires c.alive && c.pending.None? && Matches(c, results)
    ensures var result := s.judge(sh.registry, share);
            Matches(OnShare(s, sh, c, share, ok).1, results + if result.IsAccepted() then [result] else [])
  {
    var result := s.judge(sh.registry, share);
    var (_, next) := OnShare(s, sh, c, share, ok);
    AcceptedSnoc(c.written, Response(ShareReply(result)));
    assert Told(c) == AcceptedReplies(c.written) + [] == AcceptedReplies(c.written) == results;
    if next.pending.Some? {
      assert Told(next) == results + [result];
    } else {
      assert Told(next) == AcceptedReplies(next.written);
      assert ok ==> AcceptedReplies(next.written) == results + Reported(Response(ShareReply(result)));
    }
  }

  lemma FinishTells(s: Settings, sh: Shared, c: Conn, current: Option<Job>, ok: bool, results: seq<ShareResult>)
    requires c.pending.Some? && Matches(c, results)
    ensures Matches(OnFinish(s, sh, c, current, ok).1, results)
  {
    AcceptedSnoc(c.written, Response(ShareReply(ShareResult.Block)));
  }

  lemma JobTells(s: Settings, sh: Shared, c: Conn, job: Job, writes: Writes, results: seq<ShareResult>)
    requires c.alive && c.pending.None? && Matches(c, results)
    ensures Matches(OnJob(s, sh, c, job, writes).1, results)
  {
    if Wants(c, job) {
      PushTellsNothing(s, sh, c, job, writes);
    }
  }

  // Every step

  /** At most one credit, of session i. */
  predicate AtMostOne(credited: seq<Credit>, i: nat) {
    |credited| <= 1 && forall k :: 0 <= k < |credited| ==> credited[k].session == i
  }

  /** Session i moved, and was credited with this. */
  predicate Moving(w: World, next: World, i: nat, credited: seq<Credit>) {
    && i < |w.peers| == |next.peers| && next.peers == w.peers[i := next.peers[i]]
    && next.past.credits == w.past.credits + credited && AtMostOne(credited, i)
  }

  lemma ResultsGrow(credits: seq<Credit>, credited: seq<Credit>, i: nat, k: nat)
    requires AtMostOne(credited, i)
    ensures ResultsOf(credits + credited, k)
         == if k == i && credited != [] then ResultsOf(credits, k) + [credited[0].result] else ResultsOf(credits, k)
  {
    if credited == [] {
      assert credits + credited == credits;
    } else {
      assert credited == [credited[0]];
      ResultsSnoc(credits, credited[0], k);
      assert ResultsOf(credits, k) + [] == ResultsOf(credits, k);
    }
  }

  lemma MovingKeeps(w: World, next: World, i: nat, credited: seq<Credit>)
    requires RepliesOk(w) && Moving(w, next, i, credited)
    requires Matches(next.peers[i].conn,
                     if credited != [] then ResultsOf(w.past.credits, i) + [credited[0].result]
                     else ResultsOf(w.past.credits, i))
    ensures RepliesOk(next)
  {
    forall k | 0 <= k < |next.peers| ensures Matches(next.peers[k].conn, ResultsOf(next.past.credits, k)) {
      ResultsGrow(w.past.credits, credited, i, k);
    }
  }

  /** The credit that a command adds. */
  function CreditOf(s: Settings, sh: Shared, st: SessionState, i: nat, cmd: Command): seq<Credit> {
    if CreditedBy(s, sh, st, cmd) == [] then []
    else
      var share := Gate(st, cmd.submission).value;
      [Credit(i, share, Lookup(sh.registry, share.jobId), s.judge(sh.registry, share))]
  }

  lemma RequestReplies(s: Settings, w: World, i: nat, cmd: Command, current: Option<Job>, writes: Writes)
    requires RepliesOk(w) && Idle(w, i)
    ensures RepliesOk(OnRequest(s, w, i, cmd, current, writes))
  {
    var c, next := w.peers[i].conn, OnRequest(s, w, i, cmd, current, writes);
    var credited := CreditOf(s, w.shared, c.state, i, cmd);
    CommandTells(s, w.shared, c, cmd, current, writes, ResultsOf(w.past.credits, i));
    assert ResultsOf(w.past.credits, i) + [] == ResultsOf(w.past.credits, i);
    assert w.past.credits + [] == w.past.credits;
    assert next.past.credits == w.past.credits + credited;
    MovingKeeps(w, next, i, credited);
  }

  lemma ListenReplies(s: Settings, w: World, i: nat, writes: Writes)
    requires RepliesOk(w) && CanListen(w, i)
    ensures RepliesOk(OnListen(s, w, i, writes))
  {
    var got := Receive(w.ring, w.peers[i].cursor).0;
    assert w.past.credits + [] == w.past.credits;
    if got.Item? {
      JobTells(s, w.shared, w.peers[i].conn, got.value, writes, ResultsOf(w.past.credits, i));
    }
    MovingKeeps(w, OnListen(s, w, i, writes), i, []);
  }

  lemma RepliesStep(s: Settings, w: World, e: Event)
    requires RepliesOk(w)
    ensures RepliesOk(Step(s, w, e))
  {
    var next := Step(s, w, e);
    assert w.past.credits + [] == w.past.credits;
    match e
    case Request(i, cmd, current, writes) =>
      if Idle(w, i) {
        RequestReplies(s, w, i, cmd, current, writes);
      }
    case BadLine(i, line, writes) =>
      if Idle(w, i) && !line.Parsed? {
        QuietLine(w.peers[i].conn, Response(Complaint(line)), writes.response);
        MovingKeeps(w, next, i, []);
      }
    case Finish(i, current, writes) =>
      if Deciding(w, i) {
        FinishTells(s, w.shared, w.peers[i].conn, current, writes.response, ResultsOf(w.past.credits, i));
        MovingKeeps(w, next, i, []);
      }
    case Listen(i, writes) =>
      if CanListen(w, i) {
        ListenReplies(s, w, i, writes);
      }
    case Hangup(i) =>
      if Idle(w, i) {
        MovingKeeps(w, next, i, []);
      }
    case _ => NoResultsYet(w.past.credits, |w.peers|);
  }

  lemma {:induction false} RepliesOfRun(s: Settings, w: World, events: seq<Event>)
    requires RepliesOk(w)
    ensures RepliesOk(Run(s, w, events))
    decreases |events|
  {
    if events != [] {
      RepliesStep(s, w, events[0]);
      RepliesOfRun(s, Step(s, w, events[0]), events[1..]);
    }
  }

  // Whole runs

  lemma {:induction false} ReplyIsListed(out: seq<Message>, k: nat)
    requires k < |out|
    ensures forall r :: r in Reported(out[k]) ==> r in AcceptedReplies(out)
    decreases |out|
  {
    if k < |out| - 1 {
      ReplyIsListed(out[..|out| - 1], k);
    }
  }

  lemma {:induction false} ResultIsCredit(credits: seq<Credit>, i: nat, r: ShareResult) returns (c: Credit)
    requires r in ResultsOf(credits, i)
    ensures c in credits && c.session == i && c.result == r
    decreases |credits|
  {
    c := credits[|credits| - 1];
    if c.session != i || c.result != r {
      c := ResultIsCredit(credits[..|credits| - 1], i, r);
    }
  }

  /**
   In every run, under every judge: the accepting share replies a miner was sent are its
   session's credits, result by result and in order. None is missing on a live connection that
   waits for no submit, and at most the last one on any other.
   */
  lemma RepliesAreCredits(s: Settings, events: seq<Event>, i: nat)
    requires i < |Run(s, START_WORLD, events).peers|
    ensures var w := Run(s, START_WORLD, events);
            var c, results := w.peers[i].conn, ResultsOf(w.past.credits, i);
            && AcceptedReplies(c.written) <= results && |results| <= |AcceptedReplies(c.written)| + 1
            && (c.alive && c.pending.None? ==> AcceptedReplies(c.written) == results)
  {
    RepliesOfRun(s, START_WORLD, events);
    var c := Run(s, START_WORLD, events).peers[i].conn;
    assert AcceptedReplies(c.written) + [] == AcceptedReplies(c.written);
  }

  /** So each accepting reply on a connection is for a credit of its session with that result. */
  lemma ReplyIsCredit(s: Settings, events: seq<Event>, i: nat, k: nat, result: ShareResult) returns (c: Credit)
    requires i < |Run(s, START_WORLD, events).peers| && result.IsAccepted()
    requires var out := Run(s, START_WORLD, events).peers[i].conn.written;
             k < |out| && out[k] == Response(ShareReply(result))
    ensures c in Run(s, START_WORLD, events).past.credits && c.session == i && c.result == result
  {
    var w := Run(s, START_WORLD, events);
    var told, results := AcceptedReplies(w.peers[i].conn.written), ResultsOf(w.past.credits, i);
    RepliesAreCredits(s, events, i);
    ReplyIsListed(w.peers[i].conn.written, k);
    assert result in Reported(w.peers[i].conn.written[k]);
    var j :| 0 <= j < |told| && told[j] == result;
    assert results[j] == result;
    c := ResultIsCredit(w.past.credits, i, result);
  }
}
