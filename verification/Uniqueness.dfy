/** Different sessions work on different headers. */
module Uniqueness {
  import opened Bytes
  import opened Wrappers
  import opened Hex
  import opened Jobs
  import opened ShareValidator
  import opened ShareProcessor
  import opened DomainMapper
  import opened Session
  import opened SessionRules
  import opened Pool
  import opened PoolRules
  import opened PoolRuns
  import opened EndToEnd

  /** Issued extranonces that decode alike are the same text. */
  lemma IssuedTextDetermined(issued: seq<(nat, string)>, a: (nat, string), b: (nat, string))
    requires InOrder(issued) && a in issued && b in issued && HexDecode(a.1) == HexDecode(b.1)
    ensures a.1 == b.1
  {
    var j :| 0 <= j < |issued| && issued[j] == a;
    var k :| 0 <= k < |issued| && issued[k] == b;
    ExtranonceDecodes(j);
    ExtranonceDecodes(k);
  }

  lemma ExtranonceDecodes(k: nat)
    ensures HexDecode(Extranonce(k)).Some? && HexEncode(HexDecode(Extranonce(k)).value) == Extranonce(k)
  {
    HexU32Decodes((1 + k) % 0x1_0000_0000);
  }

  lemma FirstHalfDetermined(a: bytes, b: bytes, c: bytes, d: bytes)
    requires |a| == |c| && a + b == c + d
    ensures a == c
  {
    assert (a + b)[..|a|] == a && (c + d)[..|c|] == c;
  }

  /** The share a session's gate lets through. */
  predicate SubmittedBy(c: Conn, sub: Submission, share: Share) {
    Gate(c.state, sub) == Ok(share) && ShapeError(share).None?
  }

  lemma ExtranonceOf(c: Conn, sub: Submission, share: Share)
    requires SubmittedBy(c, sub, share)
    ensures SessionExtranonce(share) == HexDecode(c.state.extranonce1)
  {
  }

  lemma DifferentExtranonces(worth: Worth, from: Origin, w: World, i: nat, j: nat)
    requires PeersOk(worth, w) && LedgerOk(w) && |w.past.issued| <= 0x1_0000_0000
    requires i < j < |w.peers| && w.peers[i].conn.state.subscribed && w.peers[j].conn.state.subscribed
    ensures HexDecode(w.peers[i].conn.state.extranonce1) != HexDecode(w.peers[j].conn.state.extranonce1)
  {
    var issued := w.past.issued;
    HoldersDiffer(issued, w.peers);
    assert !ShareExtranonce(w.peers[i].conn, w.peers[j].conn);
    if HexDecode(w.peers[i].conn.state.extranonce1) == HexDecode(w.peers[j].conn.state.extranonce1) {
      IssuedTextDetermined(issued, (i, w.peers[i].conn.state.extranonce1), (j, w.peers[j].conn.state.extranonce1));
    }
  }

  /** The one share on the one job and the other on the other rebuild the same header. */
  predicate OneHeader(h: Hasher, a: Job, x: Share, b: Job, y: Share) {
    && SessionExtranonce(x).Some? && SessionExtranonce(y).Some?
    && SolvedHeader(h, a, x, SessionExtranonce(x).value).Ok?
    && SolvedHeader(h, a, x, SessionExtranonce(x).value) == SolvedHeader(h, b, y, SessionExtranonce(y).value)
  }

  /** The pair found in the coinbases of the two shares or on the walk of the job's branch. */
  function SharesCollision(h: Hasher, job: Job, x: Share, y: Share): (bytes, bytes)
    requires SessionExtranonce(x).Some? && SessionExtranonce(y).Some?
  {
    CoinbaseCollision(h, MinerCoinbase(job, SessionExtranonce(x).value, x.extraNonce2),
                      MinerCoinbase(job, SessionExtranonce(y).value, y.extraNonce2), job.merkleBranch)
  }

  /** The joined extranonces differ: in their first halves, or because only one of them is there. */
  predicate Apart(x: Share, y: Share) {
    && SessionExtranonce(x).Some? && SessionExtranonce(y).Some?
    && SessionExtranonce(x).value + x.extraNonce2 != SessionExtranonce(y).value + y.extraNonce2
  }

  lemma ApartOrCollide(h: Hasher, job: Job, x: Share, y: Share)
    requires OneHeader(h, job, x, job, y) && Apart(x, y)
    ensures IsCollision(h, SharesCollision(h, job, x, y))
  {
    HeaderBinding(h, job, x, SessionExtranonce(x).value, y, SessionExtranonce(y).value);
  }

  lemma DifferentHalves(x: Share, y: Share)
    requires SessionExtranonce(x).Some? && SessionExtranonce(y).Some? && SessionExtranonce(x) != SessionExtranonce(y)
    requires |SessionExtranonce(x).value| == |SessionExtranonce(y).value|
    ensures Apart(x, y)
  {
    var e, f := SessionExtranonce(x).value, SessionExtranonce(y).value;
    if e + x.extraNonce2 == f + y.extraNonce2 {
      FirstHalfDetermined(e, x.extraNonce2, f, y.extraNonce2);
    }
  }

  lemma SubscribedShare(c: Conn, sub: Submission, share: Share)
    requires StateOk(c.state) && c.state.subscribed && SubmittedBy(c, sub, share)
    ensures SessionExtranonce(share) == HexDecode(c.state.extranonce1) && SessionExtranonce(share).Some?
    ensures |SessionExtranonce(share).value| == 4
  {
    ExtranonceOf(c, sub, share);
    FillsState(c.state, sub);
  }

  /**
   In every run with at most 2^32 subscribes, two subscribed sessions whose shares on one job
   rebuild the same header have found an explicit hash collision.
   */
  lemma SessionsNeverOverlap(h: Hasher, s: Settings, worth: Worth, from: Origin, events: seq<Event>,
                             i: nat, a: Submission, x: Share, j: nat, b: Submission, y: Share, job: Job)
    requires Trusted(s, worth) && AllBring(from, events)
    requires var w := Run(s, START_WORLD, events);
             && |w.past.issued| <= 0x1_0000_0000 && i < j < |w.peers|
             && w.peers[i].conn.state.subscribed && w.peers[j].conn.state.subscribed
             && SubmittedBy(w.peers[i].conn, a, x) && SubmittedBy(w.peers[j].conn, b, y)
    requires OneHeader(h, job, x, job, y)
    ensures IsCollision(h, SharesCollision(h, job, x, y))
  {
    var w := Run(s, START_WORLD, events);
    ReachableOk(s, worth, from, events);
    DifferentExtranonces(worth, from, w, i, j);
    assert PeerOk(worth, w.peers[i], |w.past.broadcasts|) && PeerOk(worth, w.peers[j], |w.past.broadcasts|);
    SubscribedShare(w.peers[i].conn, a, x);
    SubscribedShare(w.peers[j].conn, b, y);
    DifferentHalves(x, y);
    ApartOrCollide(h, job, x, y);
  }

  // Credits, whenever they were given

  /** What the run's invariant says of a credit's share. */
  predicate WellFormed(issued: seq<(nat, string)>, c: Credit) {
    TextHeld(issued, c) && ShapeError(c.share).None?
  }

  lemma CreditExtranonce(issued: seq<(nat, string)>, c: Credit)
    requires WellFormed(issued, c) && c.share.extraNonce2 != []
    ensures (c.session, c.share.context.value.extranonce1Hex.value) in issued
    ensures SessionExtranonce(c.share) == HexDecode(c.share.context.value.extranonce1Hex.value)
  {
  }

  lemma CreditsApart(issued: seq<(nat, string)>, c: Credit, d: Credit)
    requires InOrder(issued) && |issued| <= 0x1_0000_0000 && c.session != d.session
    requires WellFormed(issued, c) && c.share.extraNonce2 != [] && WellFormed(issued, d) && d.share.extraNonce2 != []
    ensures SessionExtranonce(c.share) != SessionExtranonce(d.share)
  {
    CreditExtranonce(issued, c);
    CreditExtranonce(issued, d);
    var a := (c.session, c.share.context.value.extranonce1Hex.value);
    var b := (d.session, d.share.context.value.extranonce1Hex.value);
    OwnersDiffer(issued, a, b);
    if HexDecode(a.1) == HexDecode(b.1) {
      IssuedTextDetermined(issued, a, b);
    }
  }

  /** Credited shares of two sessions are apart exactly when at least one of them has an extranonce2. */
  lemma CreditedApart(issued: seq<(nat, string)>, c: Credit, d: Credit)
    requires InOrder(issued) && |issued| <= 0x1_0000_0000 && c.session != d.session
    requires WellFormed(issued, c) && Gated(c.share) && WellFormed(issued, d) && Gated(d.share)
    ensures Apart(c.share, d.share) <==> c.share.extraNonce2 != [] || d.share.extraNonce2 != []
  {
    GatedShareFills(c.share);
    GatedShareFills(d.share);
    if c.share.extraNonce2 != [] && d.share.extraNonce2 != [] {
      CreditsApart(issued, c, d);
      DifferentHalves(c.share, d.share);
    }
  }

  /** Two credits of different sessions in a run with at most 2^32 subscribes. */
  predicate OfTwoSessions(w: World, c: Credit, d: Credit) {
    && c in w.past.credits && d in w.past.credits && |w.past.issued| <= 0x1_0000_0000
    && c.session != d.session
  }

  lemma CreditIsOk(s: Settings, worth: Worth, events: seq<Event>, c: Credit)
    requires Trusted(s, worth) && c in Run(s, START_WORLD, events).past.credits
    ensures var issued := Run(s, START_WORLD, events).past.issued;
            InOrder(issued) && TextHeld(issued, c) && Gated(c.share) && c.job.Some?
    ensures worth(c.job.value, c.share, c.result)
  {
    var anywhere := (job: Job) => true;
    ReachableOk(s, worth, anywhere, events);
    assert CreditOk(worth, anywhere, Run(s, START_WORLD, events), c);
  }

  lemma CreditFacts(h: Hasher, initialDifficulty: u32, poolDifficulty: u32, events: seq<Event>, c: Credit)
    requires c in Run(Azcoin(h, initialDifficulty, poolDifficulty), START_WORLD, events).past.credits
    ensures var issued := Run(Azcoin(h, initialDifficulty, poolDifficulty), START_WORLD, events).past.issued;
            InOrder(issued) && WellFormed(issued, c) && Gated(c.share)
  {
    AzcoinTrusted(h, initialDifficulty, poolDifficulty);
    CreditIsOk(Azcoin(h, initialDifficulty, poolDifficulty), Earned(h, poolDifficulty), events, c);
    EarnedIsShaped(h, poolDifficulty, c.job.value, c.share, c.result);
  }

  lemma EarnedIsShaped(h: Hasher, difficulty: u32, job: Job, share: Share, result: ShareResult)
    requires Earned(h, difficulty)(job, share, result)
    ensures ShapeError(share).None?
  {
  }

  /**
   In every run with at most 2^32 subscribes, two credits of different sessions on one job, at
   least one of them with an extranonce2, whose shares rebuild the same header yield an explicit
   hash collision, whenever they were given, and whatever became of the sessions since.
   */
  lemma CreditsNeverOverlap(h: Hasher, initialDifficulty: u32, poolDifficulty: u32, events: seq<Event>,
                            c: Credit, d: Credit, job: Job)
    requires OfTwoSessions(Run(Azcoin(h, initialDifficulty, poolDifficulty), START_WORLD, events), c, d)
    requires c.job == d.job == Some(job)
    requires c.share.extraNonce2 != [] || d.share.extraNonce2 != []
    requires OneHeader(h, job, c.share, job, d.share)
    ensures IsCollision(h, SharesCollision(h, job, c.share, d.share))
  {
    CreditFacts(h, initialDifficulty, poolDifficulty, events, c);
    CreditFacts(h, initialDifficulty, poolDifficulty, events, d);
    CreditedApart(Run(Azcoin(h, initialDifficulty, poolDifficulty), START_WORLD, events).past.issued, c, d);
    ApartOrCollide(h, job, c.share, d.share);
  }
}
