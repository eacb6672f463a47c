/**
 The share validator: rebuild the coinbase, fold the branch, merge the version, print the
 80-byte header, hash it and compare with the two targets. The double hash is any total
 function from byte strings to 32 bytes, passed in as `h`; nothing else is known of it.
 */
module ShareValidator {
  import opened Bytes
  import opened Wrappers
  import opened Target
  import opened Jobs

  type Hasher = bytes -> Hash32

  /** `build_coinbase`, and `reconstruct_miner_coinbase` on the submission path. */
  function MinerCoinbase(job: Job, extranonce1: bytes, extraNonce2: bytes): bytes {
    job.coinbasePart1 + extranonce1 + extraNonce2 + job.coinbasePart2
  }

  /** The 64 bytes hashed for two neighbours. */
  function Join(a: Hash32, b: Hash32): (s: bytes)
    ensures |s| == 64 && s[..32] == a && s[32..] == b
  {
    var left: bytes := a;
    left + b
  }

  function Fold(h: Hasher, root: Hash32, branch: seq<Hash32>): Hash32
    decreases |branch|
  {
    if branch == [] then root else Fold(h, h(Join(root, branch[0])), branch[1..])
  }

  /** `apply_merkle_branch`. */
  method ApplyMerkleBranch(h: Hasher, leaf: Hash32, branch: seq<Hash32>) returns (root: Hash32)
    ensures root == Fold(h, leaf, branch)
  {
    root := leaf;
    for k := 0 to |branch|
      invariant Fold(h, root, branch[k..]) == Fold(h, leaf, branch)
    {
      assert branch[k..][1..] == branch[k + 1..];
      root := h(Join(root, branch[k]));
    }
  }

  /** Job bits outside the mask, submitted bits inside it. */
  function Merge(version: bv32, mask: bv32, bits: bv32): bv32 {
    (version & !mask) | (bits & mask)
  }

  /** `resolved_version`. */
  function ResolvedVersion(version: bv32, share: Share): Result<bv32, Reason> {
    match share.context
    case None => Ok(version)
    case Some(ctx) =>
      match ctx.versionBits
      case None => Ok(version)
      case Some(bits) =>
        match ctx.versionRollingMask
        case None => Err(RollingNotNegotiated)
        case Some(mask) =>
          if Within(bits, mask) then Ok(Merge(version, mask, bits)) else Err(BitsOutsideMask(bits, mask))
  }

  function Header(version: bv32, prevHash: Hash32, root: Hash32, ntime: u32, nbits: u32, nonce: u32): (s: bytes)
    ensures |s| == 80
  {
    LeBytes(version as int, 4) + prevHash + root + LeBytes(ntime, 4) + LeBytes(nbits, 4) + LeBytes(nonce, 4)
  }

  /** `build_block_header`. */
  method BuildBlockHeader(version: bv32, prevHash: Hash32, root: Hash32, ntime: u32, nbits: u32, nonce: u32)
    returns (header: bytes)
    ensures header == Header(version, prevHash, root, ntime, nbits, nonce)
  {
    header := LeBytes(version as int, 4);
    header := header + prevHash;
    header := header + root;
    header := header + LeBytes(ntime, 4);
    header := header + LeBytes(nbits, 4);
    header := header + LeBytes(nonce, 4);
  }

  lemma Concat6(a: bytes, b: bytes, c: bytes, d: bytes, e: bytes, f: bytes)
    requires |a| == |d| == |e| == |f| == 4 && |b| == |c| == 32
    ensures var s := a + b + c + d + e + f;
            && s[..4] == a && s[4..36] == b && s[36..68] == c
            && s[68..72] == d && s[72..76] == e && s[76..] == f
  {
  }

  /** Where each field lies in the header. */
  lemma HeaderFields(version: bv32, prevHash: Hash32, root: Hash32, ntime: u32, nbits: u32, nonce: u32)
    ensures var s := Header(version, prevHash, root, ntime, nbits, nonce);
            && s[..4] == LeBytes(version as int, 4) && s[4..36] == prevHash && s[36..68] == root
            && s[68..72] == LeBytes(ntime, 4) && s[72..76] == LeBytes(nbits, 4) && s[76..] == LeBytes(nonce, 4)
  {
    Concat6(LeBytes(version as int, 4), prevHash, root, LeBytes(ntime, 4), LeBytes(nbits, 4), LeBytes(nonce, 4));
  }

  /** The Merkle root the validator puts in the header. */
  function CommittedRoot(h: Hasher, job: Job, coinbase: bytes): Hash32 {
    Fold(h, h(coinbase), job.merkleBranch)
  }

  /** `build_solved_block_header`. */
  function SolvedHeader(h: Hasher, job: Job, share: Share, extranonce1: bytes): Result<bytes, Reason> {
    match ResolvedVersion(job.version, share)
    case Err(e) => Err(e)
    case Ok(version) =>
      Ok(Header(version, job.prevHash, CommittedRoot(h, job, MinerCoinbase(job, extranonce1, share.extraNonce2)),
                share.ntime, job.nbits, share.nonce))
  }

  function AtLeastOne(difficulty: u32): u32 {
    if difficulty <= 1 then 1 else difficulty
  }

  /** The block hash as an integer: the digest read in display order. */
  function HashValue(h: Hasher, header: bytes): nat {
    Be(Reverse(h(header)))
  }

  /** That is the digest as a little-endian number. */
  lemma HashReads(h: Hasher, header: bytes)
    ensures HashValue(h, header) == Le(h(header))
  {
    BeOfReverse(h(header));
  }

  /** What a header is worth: a block, a share at the pool difficulty, or neither. */
  function Classify(hash: nat, nbits: u32, difficulty: u32): ShareResult {
    if hash <= TargetValue(nbits) then Block
    else if hash <= ShareTarget(AtLeastOne(difficulty)) then Accepted
    else LowDifficulty(HashAboveTarget(AtLeastOne(difficulty)))
  }

  function Verdict(h: Hasher, job: Job, share: Share, extranonce1: bytes, difficulty: u32): ShareResult {
    match SolvedHeader(h, job, share, extranonce1)
    case Err(reason) => Rejected(reason)
    case Ok(header) => Classify(HashValue(h, header), job.nbits, difficulty)
  }

  /**
   The verdict on a share whose header can be rebuilt, in exact integers: d is the pool
   difficulty, or one when that is zero, and v the header's hash as a little-endian number.
   */
  predicate VerdictIs(result: ShareResult, v: nat, nbits: u32, difficulty: u32) {
    var d: u32 := if difficulty == 0 then 1 else difficulty;
    && (result == Block <==> v <= TargetValue(nbits))
    && (result == Accepted <==> v > TargetValue(nbits) && v * d <= 0xffff * Pow256(26))
    && (result == LowDifficulty(HashAboveTarget(d)) <==>
          v > TargetValue(nbits) && v * d > 0xffff * Pow256(26))
  }

  lemma ClassIsVerdict(v: nat, nbits: u32, difficulty: u32)
    ensures VerdictIs(Classify(v, nbits, difficulty), v, nbits, difficulty)
  {
    ShareTargetExact(v, AtLeastOne(difficulty));
  }

  lemma VerdictExactly(h: Hasher, job: Job, share: Share, extranonce1: bytes, difficulty: u32)
    requires SolvedHeader(h, job, share, extranonce1).Ok?
    ensures VerdictIs(Verdict(h, job, share, extranonce1, difficulty),
                      Le(h(SolvedHeader(h, job, share, extranonce1).value)), job.nbits, difficulty)
  {
    var header := SolvedHeader(h, job, share, extranonce1).value;
    HashReads(h, header);
    ClassIsVerdict(HashValue(h, header), job.nbits, difficulty);
  }

  /** `validate_share`, on byte arrays throughout. */
  method ValidateShare(h: Hasher, job: Job, share: Share, extranonce1: bytes, difficulty: u32)
    returns (result: ShareResult)
    ensures result == Verdict(h, job, share, extranonce1, difficulty)
    ensures var header := SolvedHeader(h, job, share, extranonce1);
            if header.Ok? then VerdictIs(result, Le(h(header.value)), job.nbits, difficulty)
            else result == Rejected(header.error)
  {
    if SolvedHeader(h, job, share, extranonce1).Ok? {
      VerdictExactly(h, job, share, extranonce1, difficulty);
    }
    var diff := AtLeastOne(difficulty);
    var coinbase := MinerCoinbase(job, extranonce1, share.extraNonce2);
    var root := ApplyMerkleBranch(h, h(coinbase), job.merkleBranch);
    var version := ResolvedVersion(job.version, share);
    if version.Err? {
      return Rejected(version.error);
    }
    var header := BuildBlockHeader(version.value, job.prevHash, root, share.ntime, job.nbits, share.nonce);
    var hash := Reverse(h(header));
    var blockTarget := NbitsToTarget(job.nbits);
    var diff1 := NbitsToTarget(DIFF1_NBITS);
    var shareTarget := DivTargetByDifficulty(diff1, diff);
    var meetsBlock := LeqBe(hash, blockTarget);
    var meetsShare := LeqBe(hash, shareTarget);
    return if meetsBlock then Block
           else if meetsShare then Accepted
           else LowDifficulty(HashAboveTarget(diff));
  }

  // Classification

  /**
   In the exponent range where the target is expanded exactly, the classes are integer
   inequalities: no rounding and no truncation is left in them. Difficulty zero counts as one.
   */
  lemma ClassificationExact(hash: nat, nbits: u32, difficulty: u32)
    requires 3 <= nbits / 0x100_0000 <= 32
    ensures var d := if difficulty == 0 then 1 else difficulty;
            var meetsBlock := hash <= nbits % 0x100_0000 * Pow256(nbits / 0x100_0000 - 3);
            var meetsShare := hash * d <= 0xffff * Pow256(26);
            && (Classify(hash, nbits, difficulty) == Block <==> meetsBlock)
            && (Classify(hash, nbits, difficulty) == Accepted <==> !meetsBlock && meetsShare)
            && (Classify(hash, nbits, difficulty) == LowDifficulty(HashAboveTarget(d)) <==> !meetsBlock && !meetsShare)
  {
    ExpandedExactly(nbits);
    ShareTargetExact(hash, AtLeastOne(difficulty));
  }

  lemma ExpandedExactly(nbits: u32)
    requires 3 <= nbits / 0x100_0000 <= 32
    ensures TargetValue(nbits) == nbits % 0x100_0000 * Pow256(nbits / 0x100_0000 - 3)
  {
    CompactExpansionExact(nbits);
    ScaleIsProduct(Mantissa(nbits), Exponent(nbits) - 3);
  }

  /** A share that is worth something at one difficulty is worth something at every lower one. */
  lemma LowerDifficultyAccepts(hash: nat, nbits: u32, low: u32, high: u32)
    requires low <= high && Classify(hash, nbits, high).IsAccepted()
    ensures Classify(hash, nbits, low).IsAccepted()
  {
    if hash <= ShareTarget(AtLeastOne(high)) {
      ShareTargetAntitone(hash, AtLeastOne(low), AtLeastOne(high));
    }
  }

  /** The digest that reads as v in display order. */
  function Digest(v: nat): Hash32 {
    Reverse(BeBytes(v, 32))
  }

  lemma DigestReads(v: nat)
    requires v < Pow256(32)
    ensures Be(Reverse(Digest(v))) == v
  {
    ReverseInvolutive(BeBytes(v, 32));
    BeBytesRoundTrip(v, 32);
  }

  // Version rolling

  function HeaderVersion(header: bytes): bv32
    requires |header| == 80
  {
    LeRoundTrip(header[..4]);
    Pow256Values();
    Le(header[..4]) as bv32
  }

  /** v has the bits of `version` outside the mask and `bits` inside it. */
  predicate Merged(version: bv32, mask: bv32, bits: bv32, v: bv32) {
    v & !mask == version & !mask && v & mask == bits
  }

  lemma MergeSplits(version: bv32, mask: bv32, bits: bv32)
    requires Within(bits, mask)
    ensures Merged(version, mask, bits, Merge(version, mask, bits))
  {
    MergeOutside(version, mask, bits);
    MergeInside(version, mask, bits);
  }

  lemma MergeOutside(version: bv32, mask: bv32, bits: bv32)
    ensures Merge(version, mask, bits) & !mask == version & !mask
  {
  }

  lemma MergeInside(version: bv32, mask: bv32, bits: bv32)
    requires Within(bits, mask)
    ensures Merge(version, mask, bits) & mask == bits
  {
  }

  lemma HeaderCarriesVersion(version: bv32, prevHash: Hash32, root: Hash32, ntime: u32, nbits: u32, nonce: u32)
    ensures HeaderVersion(Header(version, prevHash, root, ntime, nbits, nonce)) == version
  {
    HeaderFields(version, prevHash, root, ntime, nbits, nonce);
    Pow256Values();
    LeBytesRoundTrip(version as int, 4);
    assert (version as int) as bv32 == version;
  }

  /** Every rebuilt header's version is the job's outside the mask and the submitted bits inside. */
  lemma RebuiltVersion(h: Hasher, job: Job, share: Share, extranonce1: bytes)
    requires SolvedHeader(h, job, share, extranonce1).Ok?
    ensures |SolvedHeader(h, job, share, extranonce1).value| == 80
    ensures Rolled(job.version, share, HeaderVersion(SolvedHeader(h, job, share, extranonce1).value))
  {
    HeaderCarriesVersion(ResolvedVersion(job.version, share).value, job.prevHash,
                         CommittedRoot(h, job, MinerCoinbase(job, extranonce1, share.extraNonce2)),
                         share.ntime, job.nbits, share.nonce);
    ResolvedRolls(job.version, share);
  }

  /** v has the job's bits outside the share's mask and the submitted bits inside; without bits it is the job's. */
  predicate Rolled(version: bv32, share: Share, v: bv32) {
    if share.context.Some? && share.context.value.versionBits.Some? then
      && share.context.value.versionRollingMask.Some?
      && Merged(version, share.context.value.versionRollingMask.value, share.context.value.versionBits.value, v)
    else v == version
  }

  lemma ResolvedRolls(version: bv32, share: Share)
    requires ResolvedVersion(version, share).Ok?
    ensures Rolled(version, share, ResolvedVersion(version, share).value)
  {
    if share.context.Some? && share.context.value.versionBits.Some? {
      MergeSplits(version, share.context.value.versionRollingMask.value, share.context.value.versionBits.value);
    }
  }

  // Header binding

  /** Walks two folds in step and stops at the first pair of inputs that hash alike. */
  function FoldCollision(h: Hasher, a: Hash32, b: Hash32, branch: seq<Hash32>): (bytes, bytes)
    decreases |branch|
  {
    if branch == [] then (a, b)
    else
      var x, y := Join(a, branch[0]), Join(b, branch[0]);
      if h(x) == h(y) then (x, y) else FoldCollision(h, h(x), h(y), branch[1..])
  }

  predicate IsCollision(h: Hasher, p: (bytes, bytes)) {
    p.0 != p.1 && h(p.0) == h(p.1)
  }

  lemma {:induction false} FoldBinds(h: Hasher, a: Hash32, b: Hash32, branch: seq<Hash32>)
    requires a != b && Fold(h, a, branch) == Fold(h, b, branch)
    ensures IsCollision(h, FoldCollision(h, a, b, branch))
    decreases |branch|
  {
    if branch != [] {
      var x, y := Join(a, branch[0]), Join(b, branch[0]);
      if h(x) != h(y) {
        FoldBinds(h, h(x), h(y), branch[1..]);
      }
    }
  }

  function CoinbaseCollision(h: Hasher, c: bytes, d: bytes, branch: seq<Hash32>): (bytes, bytes) {
    if h(c) == h(d) then (c, d) else FoldCollision(h, h(c), h(d), branch)
  }

  lemma RootBinds(h: Hasher, job: Job, c: bytes, d: bytes)
    requires c != d && CommittedRoot(h, job, c) == CommittedRoot(h, job, d)
    ensures IsCollision(h, CoinbaseCollision(h, c, d, job.merkleBranch))
  {
    if h(c) != h(d) {
      FoldBinds(h, h(c), h(d), job.merkleBranch);
    }
  }

  lemma MiddleDetermined(p: bytes, x: bytes, y: bytes, q: bytes)
    requires p + x + q == p + y + q
    ensures x == y
  {
    assert |x| == |y|;
    assert (p + x + q)[|p|..|p| + |x|] == x;
    assert (p + y + q)[|p|..|p| + |y|] == y;
  }

  lemma HeaderInjective(v: bv32, w: bv32, prev: Hash32, r: Hash32, s: Hash32, t: u32, u: u32, nbits: u32, n: u32,
                        m: u32)
    requires Header(v, prev, r, t, nbits, n) == Header(w, prev, s, u, nbits, m)
    ensures v == w && r == s && t == u && n == m
  {
    HeaderFields(v, prev, r, t, nbits, n);
    HeaderFields(w, prev, s, u, nbits, m);
    WordInjective(v as int, w as int);
    BitsDetermined(v, w);
    WordInjective(t, u);
    WordInjective(n, m);
  }

  lemma WordInjective(v: u32, w: u32)
    requires LeBytes(v, 4) == LeBytes(w, 4)
    ensures v == w
  {
    Pow256Values();
    LeBytesInjective(v, w, 4);
  }

  /**
   Two shares on one job that rebuild the same header agree on version, time, nonce and the
   joined extranonces, or the walk over the branch names two different inputs with one hash.
   */
  lemma HeaderBinding(h: Hasher, job: Job, s: Share, e: bytes, t: Share, f: bytes)
    requires SolvedHeader(h, job, s, e).Ok? && SolvedHeader(h, job, s, e) == SolvedHeader(h, job, t, f)
    ensures ResolvedVersion(job.version, s) == ResolvedVersion(job.version, t)
    ensures s.ntime == t.ntime && s.nonce == t.nonce
    ensures || e + s.extraNonce2 == f + t.extraNonce2
            || IsCollision(h, CoinbaseCollision(h, MinerCoinbase(job, e, s.extraNonce2),
                                                MinerCoinbase(job, f, t.extraNonce2), job.merkleBranch))
  {
    var c, d := MinerCoinbase(job, e, s.extraNonce2), MinerCoinbase(job, f, t.extraNonce2);
    HeaderInjective(ResolvedVersion(job.version, s).value, ResolvedVersion(job.version, t).value, job.prevHash,
                    CommittedRoot(h, job, c), CommittedRoot(h, job, d), s.ntime, t.ntime, job.nbits, s.nonce, t.nonce);
    if c == d {
      assert c == job.coinbasePart1 + (e + s.extraNonce2) + job.coinbasePart2;
      assert d == job.coinbasePart1 + (f + t.extraNonce2) + job.coinbasePart2;
      MiddleDetermined(job.coinbasePart1, e + s.extraNonce2, f + t.extraNonce2, job.coinbasePart2);
    } else {
      RootBinds(h, job, c, d);
    }
  }
}
