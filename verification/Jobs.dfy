/** The pool's protocol-agnostic values: jobs, shares and their results. */
module Jobs {
  import opened Bytes
  import opened Wrappers

  /** What is kept from the daemon's template to assemble a block later. */
  datatype BlockAssembly = BlockAssembly(
    height: u64,
    coinbaseValue: u64,
    auxFlags: Option<bytes>,
    templateTransactions: seq<bytes>,
    witnessCommitment: Option<bytes>)

  datatype Job = Job(
    jobId: string,
    prevHash: Hash32,
    coinbasePart1: bytes,
    coinbasePart2: bytes,
    merkleBranch: seq<Hash32>,
    version: bv32,
    nbits: u32,
    ntime: u32,
    cleanJobs: bool,
    blockAssembly: Option<BlockAssembly>)
  {
    /** The height of the block to assemble, zero when there is none. */
    function Height(): u64 {
      if blockAssembly.Some? then blockAssembly.value.height else 0
    }
  }

  /** Session facts that travel with a share. */
  datatype ShareContext = ShareContext(
    expectedExtraNonce2Len: Option<nat>,
    extranonce1Hex: Option<string>,
    versionRollingMask: Option<bv32>,
    versionBits: Option<bv32>)

  datatype Share = Share(
    jobId: string,
    workerId: string,
    extraNonce2: bytes,
    ntime: u32,
    nonce: u32,
    context: Option<ShareContext>)

  /** Every bit of a is also in b. */
  predicate Within(a: bv32, b: bv32) {
    a & !b == 0
  }

  /** Why a share was refused; the source formats these into text. */
  datatype Reason =
    | HashAboveTarget(difficulty: u32)
    | ExtraNonce2Length(expected: nat, got: nat)
    | BitsOutsideMask(bits: bv32, mask: bv32)
    | RollingNotNegotiated
    | NoSuchJob(jobId: string)
    | BadExtranonce1

  datatype ShareResult =
    | Accepted
    | Block
    | LowDifficulty(reason: Reason)
    | Malformed(reason: Reason)
    | UnknownJob(reason: Reason)
    | Rejected(reason: Reason)
  {
    predicate IsAccepted() {
      Accepted? || Block?
    }

    function RejectReason(): Option<Reason> {
      if IsAccepted() then None else Some(reason)
    }
  }
}
