/** The hexadecimal fields of mining.notify. */
module Notify {
  import opened Bytes
  import opened Wrappers
  import opened Hex
  import opened Jobs

  /** Reverses each group of four bytes. */
  function SwapWords(b: bytes): (r: bytes)
    requires |b| % 4 == 0
    ensures |r| == |b|
  {
    if b == [] then [] else [b[3], b[2], b[1], b[0]] + SwapWords(b[4..])
  }

  lemma {:induction false} SwapWordsInvolutive(b: bytes)
    requires |b| % 4 == 0
    ensures SwapWords(SwapWords(b)) == b
  {
    if b != [] {
      SwapWordsInvolutive(b[4..]);
      assert SwapWords(b)[4..] == SwapWords(b[4..]);
      assert b == [b[0], b[1], b[2], b[3]] + b[4..];
    }
  }

  /** `hex_encode_prevhash_sv1`. */
  function PrevHashText(h: Hash32): string {
    HexEncode(SwapWords(h))
  }

  /** `hex_encode_reversed`. */
  function BranchText(h: Hash32): string {
    HexEncode(Reverse(h))
  }

  datatype NotifyParams = NotifyParams(
    jobId: string,
    prevHash: string,
    coinb1: string,
    coinb2: string,
    merkleBranch: seq<string>,
    version: string,
    nbits: string,
    ntime: string,
    cleanJobs: bool)

  function BranchTexts(branch: seq<Hash32>): (r: seq<string>)
    ensures |r| == |branch|
  {
    if branch == [] then [] else [BranchText(branch[0])] + BranchTexts(branch[1..])
  }

  /** `build_mining_notify`. */
  function MiningNotify(job: Job): NotifyParams {
    NotifyParams(job.jobId, PrevHashText(job.prevHash), HexEncode(job.coinbasePart1), HexEncode(job.coinbasePart2),
                 BranchTexts(job.merkleBranch), HexU32(job.version as int), HexU32(job.nbits), HexU32(job.ntime),
                 job.cleanJobs)
  }

  // What a miner reads

  lemma {:induction false} SwapWordsAt(b: bytes, p: nat)
    requires |b| % 4 == 0 && p < |b|
    ensures 0 <= p / 4 * 4 + 3 - p % 4 < |b| && SwapWords(b)[p] == b[p / 4 * 4 + 3 - p % 4]
    decreases |b|
  {
    if p >= 4 {
      SwapWordsAt(b[4..], p - 4);
      assert SwapWords(b)[4..] == SwapWords(b[4..]);
      assert (p - 4) / 4 == p / 4 - 1 && (p - 4) % 4 == p % 4;
    }
  }

  /** The bytes read are the hash with each word of four bytes reversed. */
  predicate InWords(read: Option<bytes>, h: Hash32) {
    && read.Some? && |read.value| == 32
    && forall p :: 0 <= p < 32 ==> read.value[p] == h[p / 4 * 4 + 3 - p % 4]
  }

  /** The bytes read are the hash backwards. */
  predicate Backwards(read: Option<bytes>, h: Hash32) {
    && read.Some? && |read.value| == 32
    && forall p :: 0 <= p < 32 ==> read.value[p] == h[31 - p]
  }

  lemma {:induction false} BranchTextsAt(branch: seq<Hash32>, k: nat)
    requires k < |branch|
    ensures BranchTexts(branch)[k] == BranchText(branch[k])
  {
    if k > 0 {
      BranchTextsAt(branch[1..], k - 1);
    }
  }

  lemma PrevHashReads(h: Hash32)
    ensures InWords(HexDecode(PrevHashText(h)), h)
  {
    HexRoundTrip(SwapWords(h));
    forall p | 0 <= p < 32 ensures SwapWords(h)[p] == h[p / 4 * 4 + 3 - p % 4] {
      SwapWordsAt(h, p);
    }
  }

  lemma BranchReads(branch: seq<Hash32>, k: nat)
    requires k < |branch|
    ensures Backwards(HexDecode(BranchTexts(branch)[k]), branch[k])
  {
    BranchTextsAt(branch, k);
    HexRoundTrip(Reverse(branch[k]));
  }

  /**
   Field by field, a miner that decodes the notification reads the job: its id, previous hash in
   swapped words, both coinbase parts, branch entries backwards, version, nBits, time and clean flag.
   */
  lemma NotifyReads(job: Job)
    ensures var n := MiningNotify(job);
            && n.jobId == job.jobId && n.cleanJobs == job.cleanJobs
            && InWords(HexDecode(n.prevHash), job.prevHash)
            && HexDecode(n.coinb1) == Some(job.coinbasePart1) && HexDecode(n.coinb2) == Some(job.coinbasePart2)
            && |n.merkleBranch| == |job.merkleBranch|
            && (forall k :: 0 <= k < |job.merkleBranch| ==>
                  Backwards(HexDecode(n.merkleBranch[k]), job.merkleBranch[k]))
            && ParseHexU32(n.version) == Some(job.version as int)
            && ParseHexU32(n.nbits) == Some(job.nbits) && ParseHexU32(n.ntime) == Some(job.ntime)
  {
    PrevHashReads(job.prevHash);
    HexRoundTrip(job.coinbasePart1);
    HexRoundTrip(job.coinbasePart2);
    forall k | 0 <= k < |job.merkleBranch|
      ensures Backwards(HexDecode(BranchTexts(job.merkleBranch)[k]), job.merkleBranch[k])
    {
      BranchReads(job.merkleBranch, k);
    }
    HexU32RoundTrip(job.version as int);
    HexU32RoundTrip(job.nbits);
    HexU32RoundTrip(job.ntime);
  }

  // Nothing is lost

  lemma BranchTextInjective(a: Hash32, b: Hash32)
    requires BranchText(a) == BranchText(b)
    ensures a == b
  {
    HexEncodeInjective(Reverse(a), Reverse(b));
    ReverseInvolutive(a);
    ReverseInvolutive(b);
  }

  lemma {:induction false} BranchTextsInjective(a: seq<Hash32>, b: seq<Hash32>)
    requires BranchTexts(a) == BranchTexts(b)
    ensures a == b
  {
    if a != [] {
      assert |b| == |a|;
      var s, t := BranchTexts(a), BranchTexts(b);
      assert s[0] == BranchText(a[0]) && t[0] == BranchText(b[0]);
      BranchTextInjective(a[0], b[0]);
      assert s[1..] == BranchTexts(a[1..]) && t[1..] == BranchTexts(b[1..]);
      BranchTextsInjective(a[1..], b[1..]);
      assert a == [a[0]] + a[1..] && b == [b[0]] + b[1..];
    }
  }

  lemma PrevHashTextInjective(a: Hash32, b: Hash32)
    requires PrevHashText(a) == PrevHashText(b)
    ensures a == b
  {
    HexEncodeInjective(SwapWords(a), SwapWords(b));
    SwapWordsInvolutive(a);
    SwapWordsInvolutive(b);
  }

  lemma BytesInjective(a: Job, b: Job)
    requires MiningNotify(a) == MiningNotify(b)
    ensures a.prevHash == b.prevHash && a.coinbasePart1 == b.coinbasePart1 && a.coinbasePart2 == b.coinbasePart2
    ensures a.merkleBranch == b.merkleBranch
  {
    PrevHashTextInjective(a.prevHash, b.prevHash);
    HexEncodeInjective(a.coinbasePart1, b.coinbasePart1);
    HexEncodeInjective(a.coinbasePart2, b.coinbasePart2);
    BranchTextsInjective(a.merkleBranch, b.merkleBranch);
  }

  lemma VersionInjective(a: bv32, b: bv32)
    requires HexU32(a as int) == HexU32(b as int)
    ensures a == b
  {
    HexU32Injective(a as int, b as int);
    BitsDetermined(a, b);
  }

  lemma NumbersInjective(a: Job, b: Job)
    requires MiningNotify(a) == MiningNotify(b)
    ensures a.version == b.version && a.nbits == b.nbits && a.ntime == b.ntime
  {
    VersionInjective(a.version, b.version);
    HexU32Injective(a.nbits, b.nbits);
    HexU32Injective(a.ntime, b.ntime);
  }

  /**
   Nothing that mining depends on is lost on the wire: equal notifications come from equal jobs,
   assembly data aside.
   */
  lemma NotifyInjective(a: Job, b: Job)
    requires MiningNotify(a) == MiningNotify(b)
    ensures a.(blockAssembly := None) == b.(blockAssembly := None)
  {
    BytesInjective(a, b);
    NumbersInjective(a, b);
  }
}
