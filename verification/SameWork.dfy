/**
 When work on one job is work on another. A share's header is rebuilt from whichever job the
 registry holds, so whether a share that solves one job solves the next, whatever the hash
 function, depends on exactly the job fields the header is made of.
 */
module SameWork {
  import opened Bytes
  import opened Wrappers
  import opened Target
  import opened Jobs
  import opened ShareValidator
  import opened ShareProcessor

  /** Everything the header takes from the job is the same in both. */
  predicate SameHeader(a: Job, b: Job, share: Share, e: bytes) {
    && ResolvedVersion(a.version, share) == ResolvedVersion(b.version, share)
    && a.prevHash == b.prevHash && a.nbits == b.nbits
    && MinerCoinbase(a, e, share.extraNonce2) == MinerCoinbase(b, e, share.extraNonce2)
    && a.merkleBranch == b.merkleBranch
  }

  lemma SameHeaderSolves(h: Hasher, a: Job, b: Job, share: Share, e: bytes)
    requires SameHeader(a, b, share, e)
    ensures SolvedHeader(h, a, share, e) == SolvedHeader(h, b, share, e)
    ensures Solves(h, a, share, e) <==> Solves(h, b, share, e)
  {
  }

  // A hash that tells two jobs apart

  /** The code of state k: one of a block of consecutive digests. */
  function Code(off: nat, k: nat): Hash32 {
    Digest(off + k)
  }

  function Reading(x: bytes): nat {
    Be(Reverse(x))
  }

  lemma CodeReads(off: nat, k: nat)
    requires off + k < Pow256(32)
    ensures Reading(Code(off, k)) == off + k
  {
    DigestReads(off + k);
  }

  /** State 0 is lost; state j + 1 has followed the first j entries of the branch. */
  function NextState(branch: seq<Hash32>, j: nat, y: bytes): (k: nat)
    ensures k <= |branch| + 1
  {
    if 1 <= j <= |branch| && y == branch[j - 1] then j + 1 else 0
  }

  function Follow(branch: seq<Hash32>, j: nat, other: seq<Hash32>): nat
    decreases |other|
  {
    if other == [] then j else Follow(branch, NextState(branch, j, other[0]), other[1..])
  }

  /** Only the branch itself leads from the start to its end. */
  lemma {:induction false} FollowsOnlyItself(branch: seq<Hash32>, j: nat, other: seq<Hash32>)
    requires j <= |branch| + 1
    ensures Follow(branch, j, other) <= |branch| + 1
    ensures Follow(branch, j, other) == |branch| + 1 <==> j > 0 && other == branch[j - 1..]
    decreases |other|
  {
    if other != [] {
      FollowsOnlyItself(branch, NextState(branch, j, other[0]), other[1..]);
      assert other == [other[0]] + other[1..];
      if 1 <= j <= |branch| {
        assert branch[j - 1..] == [branch[j - 1]] + branch[j..];
      }
    }
  }

  /** The state after hashing the join of a state's code and a branch entry. */
  function Track(branch: seq<Hash32>, off: nat, x: bytes): nat
    requires |x| == 64
  {
    var v := Reading(x[..32]);
    if v < off then 0 else NextState(branch, v - off, x[32..])
  }

  lemma JoinTracks(branch: seq<Hash32>, off: nat, j: nat, y: Hash32)
    requires off + j < Pow256(32)
    ensures Track(branch, off, Join(Code(off, j), y)) == NextState(branch, j, y)
  {
    CodeReads(off, j);
  }

  /** What tells two jobs apart: the two coinbases, the first one's branch, where its codes start, and one header. */
  datatype Tracker = Tracker(c: bytes, d: bytes, branch: seq<Hash32>, off: nat, win: bytes, low: Hash32, high: Hash32)
  {
    /**
     Follows the first coinbase and branch through coded digests, takes the other coinbase to the
     lost state, and is low on one header only.
     */
    function Hash(x: bytes): Hash32 {
      if x == c then Code(off, 1)
      else if x == d then Code(off, 0)
      else if |x| == 64 then Code(off, Track(branch, off, x))
      else if x == win then low
      else high
    }

    function Hasher(): Hasher {
      (x: bytes) => Hash(x)
    }

    /** The codes fit a digest and none is mistaken for a part of either coinbase. */
    predicate Valid() {
      off + |branch| + 1 < Pow256(32) && Clear(c, off, |branch| + 1) && Clear(d, off, |branch| + 1)
    }

    lemma OthersAreHigh(header: bytes)
      requires |header| == 80 && header != c && header != d && header != win
      ensures Hasher()(header) == high
    {
    }

    lemma JoinIsTracked(j: nat, y: Hash32)
      requires Valid() && j <= |branch| + 1
      ensures Hash(Join(Code(off, j), y)) == Code(off, NextState(branch, j, y))
    {
      CodeReads(off, j);
      JoinTracks(branch, off, j, y);
    }

    lemma {:induction false} FoldIsTracked(j: nat, other: seq<Hash32>)
      requires Valid() && j <= |branch| + 1
      ensures Fold(Hasher(), Code(off, j), other) == Code(off, Follow(branch, j, other))
      decreases |other|
    {
      if other != [] {
        JoinIsTracked(j, other[0]);
        FoldIsTracked(NextState(branch, j, other[0]), other[1..]);
      }
    }

    /** The first root is the code of the branch's end, the second one's state is another unless nothing differs. */
    lemma Roots(other: seq<Hash32>) returns (k: nat)
      requires Valid()
      ensures Fold(Hasher(), Hasher()(c), branch) == Code(off, |branch| + 1)
      ensures Fold(Hasher(), Hasher()(d), other) == Code(off, k)
      ensures k <= |branch| + 1 && (k == |branch| + 1 <==> c == d && branch == other)
    {
      var j := if c == d then 1 else 0;
      FoldIsTracked(1, branch);
      FoldIsTracked(j, other);
      FollowsOnlyItself(branch, 1, branch);
      FollowsOnlyItself(branch, j, other);
      k := Follow(branch, j, other);
    }
  }

  /** No code of the block stands where the coinbase, as a 64- or 80-byte input, would be mistaken for another. */
  predicate Clear(c: bytes, off: nat, n: nat) {
    && (|c| == 64 ==> !(off <= Reading(c[..32]) <= off + n))
    && (|c| == 80 ==> !(off <= Reading(c[36..68]) <= off + n))
  }

  /** Of three disjoint blocks one is clear of two coinbases. */
  lemma ClearBlock(c: bytes, d: bytes, n: nat) returns (off: nat)
    ensures off <= 2 * (n + 1) && Clear(c, off, n) && Clear(d, off, n)
  {
    off := if Clear(c, 0, n) && Clear(d, 0, n) then 0
           else if Clear(c, n + 1, n) && Clear(d, n + 1, n) then n + 1
           else 2 * (n + 1);
  }

  /** A header with a coded root is neither coinbase. */
  lemma CodedHeader(c: bytes, off: nat, n: nat, k: nat, version: bv32, prev: Hash32, ntime: u32, nbits: u32, nonce: u32)
    requires k <= n && off + n < Pow256(32) && Clear(c, off, n)
    ensures Header(version, prev, Code(off, k), ntime, nbits, nonce) != c
  {
    HeaderFields(version, prev, Code(off, k), ntime, nbits, nonce);
    CodeReads(off, k);
  }

  lemma HeaderDetermines(v: bv32, w: bv32, p: Hash32, q: Hash32, r: Hash32, s: Hash32, t: u32, m: u32, n: u32, o: u32)
    requires Header(v, p, r, t, m, o) == Header(w, q, s, t, n, o)
    ensures v == w && p == q && r == s && m == n
  {
    HeaderFields(v, p, r, t, m, o);
    HeaderFields(w, q, s, t, n, o);
    WordInjective(m, n);
    HeaderInjective(v, w, p, r, s, t, t, m, o, o);
  }

  lemma CodeInjective(off: nat, j: nat, k: nat)
    requires off + j < Pow256(32) && off + k < Pow256(32) && Code(off, j) == Code(off, k)
    ensures j == k
  {
    CodeReads(off, j);
    CodeReads(off, k);
  }

  lemma DigestOf(v: nat) returns (x: Hash32)
    requires v < Pow256(32)
    ensures Reading(x) == v
  {
    x := Digest(v);
    DigestReads(v);
  }

  /** A digest that meets every target, and one that misses the job's and the pool's. */
  lemma Extremes(nbits: u32, difficulty: u32) returns (low: Hash32, high: Hash32)
    ensures Reading(low) == 0 && Misses(Reading(high), nbits, difficulty)
  {
    TargetBelowMax(nbits);
    ShareTargetBelowMax(difficulty);
    low := DigestOf(0);
    var most := if TargetValue(nbits) < ShareTarget(difficulty) then ShareTarget(difficulty) else TargetValue(nbits);
    high := DigestOf(most + 1);
  }

  /** Neither a block nor a share. */
  predicate Misses(hash: nat, nbits: u32, difficulty: u32) {
    hash > TargetValue(nbits) && hash > ShareTarget(difficulty)
  }

  /** The header that the first job gives under its tracker. */
  function WinningHeader(a: Job, share: Share, off: nat): bytes
    requires ResolvedVersion(a.version, share).Ok?
  {
    Header(ResolvedVersion(a.version, share).value, a.prevHash, Code(off, |a.merkleBranch| + 1),
           share.ntime, a.nbits, share.nonce)
  }

  /** And its codes fit a digest. */
  lemma CodeBlock(c: bytes, d: bytes, n: nat) returns (off: nat)
    requires n <= 0x1_0000_0000_0000_0000
    ensures off + n < Pow256(32) && Clear(c, off, n) && Clear(d, off, n)
  {
    off := ClearBlock(c, d, n);
    Pow256Values();
    Pow256Monotone(9, 32);
  }

  lemma TrackerFor(a: Job, b: Job, share: Share, e: bytes, difficulty: u32) returns (t: Tracker)
    requires ResolvedVersion(a.version, share).Ok? && |a.merkleBranch| < 0x1_0000_0000_0000_0000
    ensures t.c == MinerCoinbase(a, e, share.extraNonce2) && t.d == MinerCoinbase(b, e, share.extraNonce2)
    ensures t.branch == a.merkleBranch && t.win == WinningHeader(a, share, t.off) && t.Valid()
    ensures Reading(t.low) == 0 && Misses(Reading(t.high), b.nbits, difficulty)
  {
    var c, d := MinerCoinbase(a, e, share.extraNonce2), MinerCoinbase(b, e, share.extraNonce2);
    var off := CodeBlock(c, d, |a.merkleBranch| + 1);
    var low, high := Extremes(b.nbits, difficulty);
    t := Tracker(c, d, a.merkleBranch, off, WinningHeader(a, share, off), low, high);
  }

  lemma WinningIsLow(t: Tracker, a: Job, share: Share, e: bytes)
    requires ResolvedVersion(a.version, share).Ok? && t.Valid() && Reading(t.low) == 0
    requires t.c == MinerCoinbase(a, e, share.extraNonce2) && t.branch == a.merkleBranch
    requires t.win == WinningHeader(a, share, t.off)
    ensures Solves(t.Hasher(), a, share, e)
  {
    var k := t.Roots([]);
    var n, v := |t.branch| + 1, ResolvedVersion(a.version, share).value;
    CodedHeader(t.c, t.off, n, n, v, a.prevHash, share.ntime, a.nbits, share.nonce);
    CodedHeader(t.d, t.off, n, n, v, a.prevHash, share.ntime, a.nbits, share.nonce);
    assert SolvedHeader(t.Hasher(), a, share, e) == Ok(t.win);
  }

  /** If the two headers agree although the jobs' do not, so do the two states. */
  lemma HeadersApart(a: Job, b: Job, share: Share, e: bytes, off: nat, k: nat, header: bytes)
    requires ResolvedVersion(a.version, share).Ok? && ResolvedVersion(b.version, share).Ok?
    requires off + |a.merkleBranch| + 1 < Pow256(32) && k <= |a.merkleBranch| + 1 && !SameHeader(a, b, share, e)
    requires k == |a.merkleBranch| + 1 ==>
               MinerCoinbase(a, e, share.extraNonce2) == MinerCoinbase(b, e, share.extraNonce2)
               && a.merkleBranch == b.merkleBranch
    requires header == Header(ResolvedVersion(b.version, share).value, b.prevHash, Code(off, k),
                              share.ntime, b.nbits, share.nonce)
    ensures header != WinningHeader(a, share, off)
  {
    var n := |a.merkleBranch| + 1;
    if header == WinningHeader(a, share, off) {
      HeaderDetermines(ResolvedVersion(a.version, share).value, ResolvedVersion(b.version, share).value,
                       a.prevHash, b.prevHash, Code(off, n), Code(off, k), share.ntime, a.nbits, b.nbits, share.nonce);
      CodeInjective(off, n, k);
      assert false;
    }
  }

  /** The share's header on the job is worth nothing. */
  predicate Worthless(h: Hasher, job: Job, share: Share, e: bytes, difficulty: u32) {
    var header := SolvedHeader(h, job, share, e);
    header.Ok? && Misses(HashValue(h, header.value), job.nbits, difficulty)
  }

  lemma OtherIsHigh(t: Tracker, a: Job, b: Job, share: Share, e: bytes, difficulty: u32)
    requires ResolvedVersion(a.version, share).Ok? && ResolvedVersion(b.version, share).Ok?
    requires t.Valid() && Misses(Reading(t.high), b.nbits, difficulty)
    requires t.c == MinerCoinbase(a, e, share.extraNonce2) && t.d == MinerCoinbase(b, e, share.extraNonce2)
    requires t.branch == a.merkleBranch && t.win == WinningHeader(a, share, t.off)
    requires !SameHeader(a, b, share, e)
    ensures Worthless(t.Hasher(), b, share, e, difficulty)
  {
    var n, w := |t.branch| + 1, ResolvedVersion(b.version, share).value;
    var k := t.Roots(b.merkleBranch);
    var header := Header(w, b.prevHash, Code(t.off, k), share.ntime, b.nbits, share.nonce);
    CodedHeader(t.c, t.off, n, k, w, b.prevHash, share.ntime, b.nbits, share.nonce);
    CodedHeader(t.d, t.off, n, k, w, b.prevHash, share.ntime, b.nbits, share.nonce);
    HeadersApart(a, b, share, e, t.off, k, header);
    t.OthersAreHigh(header);
    assert SolvedHeader(t.Hasher(), b, share, e) == Ok(header);
  }

  /** Version bits that merge into one job's version merge into every job's. */
  lemma VersionsResolve(v: bv32, w: bv32, share: Share)
    ensures ResolvedVersion(v, share).Ok? <==> ResolvedVersion(w, share).Ok?
  {
  }

  /**
   Unless the two jobs give one header, some hash makes the share solve the first, while its
   header on the second misses both that job's target and the pool's, whatever the difficulty.
   */
  lemma DifferentHeadersDiffer(a: Job, b: Job, share: Share, e: bytes, difficulty: u32) returns (h: Hasher)
    requires ResolvedVersion(a.version, share).Ok? && |a.merkleBranch| < 0x1_0000_0000_0000_0000
    requires !SameHeader(a, b, share, e)
    ensures Solves(h, a, share, e) && !Solves(h, b, share, e) && Worthless(h, b, share, e, difficulty)
  {
    var t := TrackerFor(a, b, share, e, difficulty);
    h := t.Hasher();
    VersionsResolve(a.version, b.version, share);
    WinningIsLow(t, a, share, e);
    OtherIsHigh(t, a, b, share, e, difficulty);
  }

  /**
   Every share that solves one job solves the other, under every hash function, exactly when
   the two jobs give the share one header.
   */
  lemma SolvesCarriesOver(a: Job, b: Job, share: Share, e: bytes)
    requires ResolvedVersion(a.version, share).Ok? && |a.merkleBranch| < 0x1_0000_0000_0000_0000
    ensures (forall h: Hasher :: Solves(h, a, share, e) ==> Solves(h, b, share, e)) <==> SameHeader(a, b, share, e)
  {
    if SameHeader(a, b, share, e) {
      forall h: Hasher ensures Solves(h, a, share, e) ==> Solves(h, b, share, e) {
        SameHeaderSolves(h, a, b, share, e);
      }
    } else {
      var h := DifferentHeadersDiffer(a, b, share, e, 1);
    }
  }
}
