/** Credits of different sessions on different template jobs. */
module CrossJobs {
  import opened Bytes
  import opened Wrappers
  import opened Hex
  import opened Codecs
  import opened Transactions
  import opened Coinbase
  import opened CoinbaseSplit
  import opened Jobs
  import opened TemplateMapper
  import opened ShareValidator
  import opened ShareProcessor
  import opened Merkle
  import opened SessionRules
  import opened Pool
  import opened PoolRules
  import opened EndToEnd
  import opened Uniqueness

  // Two roots

  /** What is hashed last on the way from these bytes along the branch. */
  function LastInput(h: Hasher, c: bytes, branch: seq<Hash32>): bytes {
    if branch == [] then c else Join(Fold(h, h(c), branch[..|branch| - 1]), Last(branch))
  }

  lemma FoldOfLastInput(h: Hasher, c: bytes, branch: seq<Hash32>)
    ensures Fold(h, h(c), branch) == h(LastInput(h, c, branch))
  {
    if branch != [] {
      FoldJoinsLast(h, h(c), branch);
    }
  }

  /** Walks two branches back from their ends, in step, to the first inputs that differ. */
  function BackCollision(h: Hasher, c: bytes, a: seq<Hash32>, d: bytes, b: seq<Hash32>): (bytes, bytes)
    decreases |a|
  {
    var x, y := LastInput(h, c, a), LastInput(h, d, b);
    if x != y || a == [] || b == [] then (x, y) else BackCollision(h, c, a[..|a| - 1], d, b[..|b| - 1])
  }

  /** Two byte strings that are no joins and have one root, on whatever branches, give a collision. */
  lemma {:induction false} RootsBind(h: Hasher, c: bytes, a: seq<Hash32>, d: bytes, b: seq<Hash32>)
    requires c != d && |c| != 64 && |d| != 64 && Fold(h, h(c), a) == Fold(h, h(d), b)
    ensures IsCollision(h, BackCollision(h, c, a, d, b))
    decreases |a|
  {
    FoldOfLastInput(h, c, a);
    FoldOfLastInput(h, d, b);
    if LastInput(h, c, a) == LastInput(h, d, b) && a != [] && b != [] {
      var front, back := a[..|a| - 1], b[..|b| - 1];
      JoinInjective(Fold(h, h(c), front), Last(a), Fold(h, h(d), back), Last(b));
      RootsBind(h, c, front, d, back);
    }
  }

  /** The pair found on the walk back along the two jobs' branches. */
  function JobsCollision(h: Hasher, a: Job, x: Share, b: Job, y: Share): (bytes, bytes)
    requires SessionExtranonce(x).Some? && SessionExtranonce(y).Some?
  {
    BackCollision(h, MinerCoinbase(a, SessionExtranonce(x).value, x.extraNonce2), a.merkleBranch,
                  MinerCoinbase(b, SessionExtranonce(y).value, y.extraNonce2), b.merkleBranch)
  }

  lemma OneRoot(h: Hasher, a: Job, x: Share, e: bytes, b: Job, y: Share, f: bytes)
    requires SolvedHeader(h, a, x, e).Ok? && SolvedHeader(h, a, x, e) == SolvedHeader(h, b, y, f)
    ensures CommittedRoot(h, a, MinerCoinbase(a, e, x.extraNonce2))
         == CommittedRoot(h, b, MinerCoinbase(b, f, y.extraNonce2))
  {
    HeaderFields(ResolvedVersion(a.version, x).value, a.prevHash,
                 CommittedRoot(h, a, MinerCoinbase(a, e, x.extraNonce2)), x.ntime, a.nbits, x.nonce);
    HeaderFields(ResolvedVersion(b.version, y).value, b.prevHash,
                 CommittedRoot(h, b, MinerCoinbase(b, f, y.extraNonce2)), y.ntime, b.nbits, y.nonce);
  }

  /** A coinbase filled with eight bytes, which is longer than any join and gives the bytes back. */
  lemma FilledCoinbase(t: BlockTemplate, payout: bytes, job: Job, e1: bytes, e2: bytes)
    requires CleanJob(t, payout, job) && |e1| + |e2| == 8
    ensures |MinerCoinbase(job, e1, e2)| > 64
    ensures FilledProperly(CoinbaseOf(t, payout), e1 + e2, MinerCoinbase(job, e1, e2))
  {
    TemplateCoinbase(t, payout, job, e1, e2);
    JobFromTemplate(t, payout, job);
    JoinedExtranonces(job, e1, e2);
    FilledIsLong(CoinbaseOf(t, payout), job.coinbasePart1, job.coinbasePart2, e1 + e2, MinerCoinbase(job, e1, e2));
  }

  lemma FilledIsLong(i: CoinbaseInputs, part1: bytes, part2: bytes, e: bytes, coinbase: bytes)
    requires Sized(i) && SplitsCleanly(i) && |e| == 8
    requires CoinbaseParts(i) == Ok((part1, part2)) && coinbase == part1 + e + part2
    ensures |coinbase| > 64
  {
    PartsReassemble(i);
    CoinbaseShape(i, e);
    HeadSize(SigLength(i, 8));
    RestIsLong(CoinbaseOutputs(i));
  }

  lemma RestIsLong(outs: seq<Output>)
    requires outs != []
    ensures |Rest(outs)| >= 18 + |outs[0].scriptPubkey|
  {
    assert PrintMany(OUTPUT_CODEC, outs) == OUTPUT_CODEC.encode(outs[0]) + PrintMany(OUTPUT_CODEC, outs[1..]);
    assert OUTPUT_CODEC.encode(outs[0]) == LeBytes(outs[0].value, 8) + VAR_BYTES.encode(outs[0].scriptPubkey);
  }

  /** One coinbase is filled with one extranonce, whichever two templates it is read as. */
  lemma FilledWithOne(i: CoinbaseInputs, j: CoinbaseInputs, e: bytes, f: bytes, coinbase: bytes)
    requires FilledProperly(i, e, coinbase) && FilledProperly(j, f, coinbase) && |e| == |f|
    ensures e == f
  {
    var x, y := FlagBytes(i) + e, FlagBytes(j) + f;
    assert x == y;
    assert x[|x| - |e|..] == e && y[|y| - |f|..] == f;
  }

  /** The two coinbases differ, and neither is as long as a join. */
  predicate Differ(a: Job, x: Share, b: Job, y: Share)
    requires SessionExtranonce(x).Some? && SessionExtranonce(y).Some?
  {
    var c := MinerCoinbase(a, SessionExtranonce(x).value, x.extraNonce2);
    var d := MinerCoinbase(b, SessionExtranonce(y).value, y.extraNonce2);
    c != d && |c| != 64 && |d| != 64
  }

  lemma TwoFilledDiffer(payout: bytes, t: BlockTemplate, a: Job, x: Share, u: BlockTemplate, b: Job, y: Share)
    requires CleanJob(t, payout, a) && CleanJob(u, payout, b) && Apart(x, y)
    requires |SessionExtranonce(x).value| == |x.extraNonce2| == 4
    requires |SessionExtranonce(y).value| == |y.extraNonce2| == 4
    ensures Differ(a, x, b, y)
  {
    var e, f := SessionExtranonce(x).value, SessionExtranonce(y).value;
    var c, d := MinerCoinbase(a, e, x.extraNonce2), MinerCoinbase(b, f, y.extraNonce2);
    FilledCoinbase(t, payout, a, e, x.extraNonce2);
    FilledCoinbase(u, payout, b, f, y.extraNonce2);
    if c == d {
      FilledWithOne(CoinbaseOf(t, payout), CoinbaseOf(u, payout), e + x.extraNonce2, f + y.extraNonce2, c);
    }
  }

  lemma DifferentCoinbasesCollide(h: Hasher, a: Job, x: Share, b: Job, y: Share)
    requires OneHeader(h, a, x, b, y) && Differ(a, x, b, y)
    ensures IsCollision(h, JobsCollision(h, a, x, b, y))
  {
    var e, f := SessionExtranonce(x).value, SessionExtranonce(y).value;
    OneRoot(h, a, x, e, b, y, f);
    RootsBind(h, MinerCoinbase(a, e, x.extraNonce2), a.merkleBranch,
              MinerCoinbase(b, f, y.extraNonce2), b.merkleBranch);
  }

  // One of the two did not subscribe

  lemma CutUnfilled(hay: bytes, o: nat, lead: bytes, num: bytes, body: bytes, rest: bytes, part1: bytes, part2: bytes)
    requires hay == lead + (num + (body + (PLACEHOLDER + rest))) && o == |lead| + |num| + |body|
    requires SplitAtPlaceholder(hay) == Ok((part1, part2)) && FirstMatch(hay, PLACEHOLDER) == Some(o)
    ensures part1 + part2 == lead + (num + (body + rest))
  {
    CutAround(hay, o, lead, num, body, PLACEHOLDER, rest);
  }

  /** The parts around nothing: what an unsubscribed session's coinbase is. */
  lemma UnfilledShape(i: CoinbaseInputs, part1: bytes, part2: bytes)
    requires Sized(i) && SplitsCleanly(i) && CoinbaseParts(i) == Ok((part1, part2))
    ensures part1 + part2 == Lead(i, 8) + (ScriptNum(i.height) + (Body(i, 8) + Rest(CoinbaseOutputs(i))))
  {
    FirstMatchIntended(i);
    CoinbaseShape(i, PLACEHOLDER);
    CutUnfilled(CoinbaseWith(i, PLACEHOLDER), IntendedOffset(i),
                Lead(i, 8), ScriptNum(i.height), Body(i, 8), Rest(CoinbaseOutputs(i)), part1, part2);
  }

  /** Coinbases that start alike have scripts of one length, so the extranonce belongs at one offset. */
  lemma OneOffset(i: CoinbaseInputs, j: CoinbaseInputs, x: bytes, y: bytes)
    requires Sized(i) && Sized(j) && Lead(i, 8) + x == Lead(j, 8) + y
    ensures IntendedOffset(i) == IntendedOffset(j)
  {
    HeadSize(SigLength(i, 8));
    HeadSize(SigLength(j, 8));
    ScriptNumFits(i.height);
    ScriptNumFits(j.height);
    SizeReads(SigLength(i, 8), Head(SigLength(i, 8)), [|ScriptNum(i.height)|], x, Lead(i, 8) + x);
    SizeReads(SigLength(j, 8), Head(SigLength(j, 8)), [|ScriptNum(j.height)|], y, Lead(j, 8) + y);
  }

  lemma SizeReads(n: nat, head: bytes, num: bytes, x: bytes, s: bytes)
    requires n < COMPACT_LIMIT && |head| >= 41 && head[41..] == PrintCompactSize(n) && s == head + num + x
    ensures ParseCompactSize(s[41..]).Some? && ParseCompactSize(s[41..]).value.0 == n
  {
    PrintedSizeParses(n, num + x);
    assert s[41..] == head[41..] + (num + x);
  }

  lemma BytesAt(s: bytes, o: nat, lead: bytes, num: bytes, body: bytes, e: bytes, rest: bytes)
    requires s == lead + (num + (body + (e + rest))) && o == |lead| + |num| + |body| && |e| >= 4
    ensures |s| >= o + 4 && s[o..o + 4] == e[..4]
  {
    CutAround(s, o, lead, num, body, e, rest);
    assert s[o..o + |e|][..4] == s[o..o + 4];
  }

  lemma StartsWith(a: bytes, b: bytes, c: bytes)
    ensures (a + b + c)[..|a|] == a
  {
  }

  lemma RestStarts(outs: seq<Output>)
    ensures |Rest(outs)| >= 4 && Rest(outs)[..4] == [0xff, 0xff, 0xff, 0xff]
  {
    FourMaxBytes();
    StartsWith(LeBytes(0xffff_ffff, 4), BIP144.outputs.encode(outs), LeBytes(0, 4));
  }

  /** The same offset of the same bytes holds the extranonce and the rest. */
  lemma MiddlesMeet(s: bytes, o: nat, a: bytes, num: bytes, body: bytes, e: bytes, rest: bytes,
                    b: bytes, num': bytes, body': bytes, rest': bytes)
    requires s == a + (num + (body + (e + rest))) == b + (num' + (body' + rest'))
    requires o == |a| + |num| + |body| == |b| + |num'| + |body'| && |e| >= 4 && |rest'| >= 4
    ensures e[..4] == rest'[..4]
  {
    BytesAt(s, o, a, num, body, e, rest);
    assert rest' + [] == rest';
    BytesAt(s, o, b, num', body', rest', []);
  }

  /** A filled and an unfilled coinbase are equal only if the extranonce starts with the sequence number's bytes. */
  lemma FilledIsUnfilled(i: CoinbaseInputs, j: CoinbaseInputs, e: bytes, s: bytes)
    requires Sized(i) && Sized(j) && |e| == 8 && s == CoinbaseWith(i, e)
    requires s == Lead(j, 8) + (ScriptNum(j.height) + (Body(j, 8) + Rest(CoinbaseOutputs(j))))
    ensures e[..4] == [0xff, 0xff, 0xff, 0xff]
  {
    var resti, restj := Rest(CoinbaseOutputs(i)), Rest(CoinbaseOutputs(j));
    CoinbaseShape(i, e);
    OneOffset(i, j, ScriptNum(i.height) + (Body(i, 8) + (e + resti)), ScriptNum(j.height) + (Body(j, 8) + restj));
    RestStarts(CoinbaseOutputs(j));
    MiddlesMeet(s, IntendedOffset(i), Lead(i, 8), ScriptNum(i.height), Body(i, 8), e, resti,
                Lead(j, 8), ScriptNum(j.height), Body(j, 8), restj);
  }

  const LAST_EXTRANONCE: bytes := [0xff, 0xff, 0xff, 0xff]

  lemma JoinedNothing(job: Job)
    ensures MinerCoinbase(job, [], []) == job.coinbasePart1 + job.coinbasePart2
  {
  }

  lemma FirstHalf(a: bytes, b: bytes)
    ensures (a + b)[..|a|] == a
  {
  }

  lemma PartsOf(t: BlockTemplate, payout: bytes, job: Job) returns (i: CoinbaseInputs)
    requires CleanJob(t, payout, job)
    ensures Sized(i) && SplitsCleanly(i) && i.payoutScriptPubkey == payout
    ensures CoinbaseParts(i) == Ok((job.coinbasePart1, job.coinbasePart2))
  {
    JobFromTemplate(t, payout, job);
    i := CoinbaseOf(t, payout);
  }

  lemma UnfilledIsLong(j: CoinbaseInputs, s: bytes)
    requires s == Lead(j, 8) + (ScriptNum(j.height) + (Body(j, 8) + Rest(CoinbaseOutputs(j))))
    requires |j.payoutScriptPubkey| > 2
    ensures |s| > 64
  {
    HeadSize(SigLength(j, 8));
    RestIsLong(CoinbaseOutputs(j));
  }

  lemma UnfilledParts(i: CoinbaseInputs, part1: bytes, part2: bytes, e: bytes,
                      j: CoinbaseInputs, part3: bytes, part4: bytes)
    requires Sized(i) && SplitsCleanly(i) && CoinbaseParts(i) == Ok((part1, part2))
    requires Sized(j) && SplitsCleanly(j) && CoinbaseParts(j) == Ok((part3, part4))
    requires |e| == 8 && e[..4] != LAST_EXTRANONCE && |j.payoutScriptPubkey| > 2
    ensures part1 + e + part2 != part3 + part4 && |part3 + part4| > 64
  {
    PartsReassemble(i);
    UnfilledShape(j, part3, part4);
    UnfilledIsLong(j, part3 + part4);
    if CoinbaseWith(i, e) == part3 + part4 {
      FilledIsUnfilled(i, j, e, part3 + part4);
    }
  }

  /** A coinbase without extranonces: longer than a join, and no filled one unless the counter was at its end. */
  lemma UnfilledCoinbase(payout: bytes, t: BlockTemplate, a: Job, e1: bytes, e2: bytes, u: BlockTemplate, b: Job)
    requires CleanJob(t, payout, a) && CleanJob(u, payout, b) && |payout| > 2
    requires |e1| == |e2| == 4 && e1 != LAST_EXTRANONCE
    ensures MinerCoinbase(a, e1, e2) != MinerCoinbase(b, [], []) && |MinerCoinbase(b, [], [])| > 64
  {
    var i := PartsOf(t, payout, a);
    var j := PartsOf(u, payout, b);
    JoinedExtranonces(a, e1, e2);
    JoinedNothing(b);
    FirstHalf(e1, e2);
    UnfilledParts(i, a.coinbasePart1, a.coinbasePart2, e1 + e2, j, b.coinbasePart1, b.coinbasePart2);
  }

  lemma OneFilledDiffers(payout: bytes, t: BlockTemplate, a: Job, x: Share, u: BlockTemplate, b: Job, y: Share)
    requires CleanJob(t, payout, a) && CleanJob(u, payout, b) && |payout| > 2
    requires SessionExtranonce(x).Some? && SessionExtranonce(y) == Some([]) && y.extraNonce2 == []
    requires |SessionExtranonce(x).value| == |x.extraNonce2| == 4 && SessionExtranonce(x).value != LAST_EXTRANONCE
    ensures Differ(a, x, b, y) && Differ(b, y, a, x)
  {
    FilledCoinbase(t, payout, a, SessionExtranonce(x).value, x.extraNonce2);
    UnfilledCoinbase(payout, t, a, SessionExtranonce(x).value, x.extraNonce2, u, b);
  }

  lemma LastOfCounter()
    ensures BeBytes(0xffff_ffff, 4) == LAST_EXTRANONCE
  {
    assert BeBytes(0xff, 1) == BeBytes(0, 0) + [0xff];
    assert BeBytes(0xffff, 2) == BeBytes(0xff, 1) + [0xff];
    assert BeBytes(0xff_ffff, 3) == BeBytes(0xffff, 2) + [0xff];
    assert BeBytes(0xffff_ffff, 4) == BeBytes(0xff_ffff, 3) + [0xff];
  }

  lemma BeBytesInjective(v: nat, w: nat, n: nat)
    requires v < Pow256(n) && w < Pow256(n) && BeBytes(v, n) == BeBytes(w, n)
    ensures v == w
  {
    BeBytesRoundTrip(v, n);
    BeBytesRoundTrip(w, n);
  }

  lemma NotLast(v: u32, b: bytes)
    requires v != 0xffff_ffff && b == BeBytes(v, 4)
    ensures b != LAST_EXTRANONCE
  {
    LastOfCounter();
    Pow256Values();
    if b == LAST_EXTRANONCE {
      BeBytesInjective(v, 0xffff_ffff, 4);
    }
  }

  lemma TextIsEarly(k: nat, decoded: Option<bytes>)
    requires 1 + k < 0xffff_ffff && decoded == HexDecode(Extranonce(k))
    ensures decoded != Some(LAST_EXTRANONCE)
  {
    assert Extranonce(k) == HexU32(1 + k);
    HexU32Decodes(1 + k);
    NotLast(1 + k, decoded.value);
  }

  lemma EarlyExtranonce(issued: seq<(nat, string)>, entry: (nat, string))
    requires InOrder(issued) && |issued| < 0xffff_ffff && entry in issued
    ensures HexDecode(entry.1) != Some(LAST_EXTRANONCE)
  {
    var k :| 0 <= k < |issued| && issued[k] == entry;
    TextIsEarly(k, HexDecode(Extranonce(k)));
  }

  // Every run

  /** Both shares have an extranonce2, or one has and the counter and the payout script exclude a coincidence. */
  predicate Distinguished(payout: bytes, subscribes: nat, x: Share, y: Share) {
    || (x.extraNonce2 != [] && y.extraNonce2 != [])
    || ((x.extraNonce2 != [] || y.extraNonce2 != []) && |payout| > 2 && subscribes < 0xffff_ffff)
  }

  lemma CreditIsEarly(issued: seq<(nat, string)>, c: Credit)
    requires InOrder(issued) && |issued| < 0xffff_ffff && WellFormed(issued, c) && c.share.extraNonce2 != []
    requires SessionExtranonce(c.share).Some?
    ensures SessionExtranonce(c.share).value != LAST_EXTRANONCE
  {
    CreditExtranonce(issued, c);
    EarlyExtranonce(issued, (c.session, c.share.context.value.extranonce1Hex.value));
  }

  lemma CreditedDiffer(issued: seq<(nat, string)>, c: Credit, d: Credit, payout: bytes, t: BlockTemplate, a: Job,
                       u: BlockTemplate, b: Job)
    requires InOrder(issued) && |issued| <= 0x1_0000_0000 && c.session != d.session
    requires WellFormed(issued, c) && Gated(c.share) && WellFormed(issued, d) && Gated(d.share)
    requires CleanJob(t, payout, a) && CleanJob(u, payout, b) && Distinguished(payout, |issued|, c.share, d.share)
    ensures SessionExtranonce(c.share).Some? && SessionExtranonce(d.share).Some? && Differ(a, c.share, b, d.share)
  {
    GatedShareFills(c.share);
    GatedShareFills(d.share);
    CreditedApart(issued, c, d);
    if c.share.extraNonce2 != [] && d.share.extraNonce2 != [] {
      TwoFilledDiffer(payout, t, a, c.share, u, b, d.share);
    } else if c.share.extraNonce2 != [] {
      CreditIsEarly(issued, c);
      OneFilledDiffers(payout, t, a, c.share, u, b, d.share);
    } else {
      CreditIsEarly(issued, d);
      OneFilledDiffers(payout, u, b, d.share, t, a, c.share);
    }
  }

  /**
   In every run with at most 2^32 subscribes, two credits of different sessions on any two jobs
   made from templates that split cleanly, whose shares rebuild the same header, yield an explicit
   hash collision: if both have an extranonce2, and also if only one has, as long as the last
   value of the counter was not issued and the payout script is longer than two bytes.
   */
  lemma CreditsNeverOverlapAcrossJobs(h: Hasher, initialDifficulty: u32, poolDifficulty: u32, events: seq<Event>,
                                      c: Credit, d: Credit, payout: bytes, t: BlockTemplate, a: Job,
                                      u: BlockTemplate, b: Job)
    requires var w := Run(Azcoin(h, initialDifficulty, poolDifficulty), START_WORLD, events);
             OfTwoSessions(w, c, d) && Distinguished(payout, |w.past.issued|, c.share, d.share)
    requires c.job == Some(a) && d.job == Some(b) && CleanJob(t, payout, a) && CleanJob(u, payout, b)
    requires OneHeader(h, a, c.share, b, d.share)
    ensures IsCollision(h, JobsCollision(h, a, c.share, b, d.share))
  {
    CreditFacts(h, initialDifficulty, poolDifficulty, events, c);
    CreditFacts(h, initialDifficulty, poolDifficulty, events, d);
    CreditedDiffer(Run(Azcoin(h, initialDifficulty, poolDifficulty), START_WORLD, events).past.issued, c, d,
                   payout, t, a, u, b);
    DifferentCoinbasesCollide(h, a, c.share, b, d.share);
  }
}
