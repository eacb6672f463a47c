/**
 Share processing: shape checks from the session's context, then job linkage, then the
 coin's validator. Each share leaves exactly one record, whichever way it exits.
 */
module ShareProcessor {
  import opened Bytes
  import opened Wrappers
  import opened Hex
  import opened Jobs
  import opened JobRegistry
  import opened ShareLog
  import opened ShareValidator
  import Target

  type Validator = (Job, Share, bytes, u32) -> ShareResult

  /** The first failing check that needs no job: extranonce2 length, then the version bits. */
  function ShapeError(share: Share): Option<Reason> {
    match share.context
    case None => None
    case Some(ctx) =>
      if ctx.expectedExtraNonce2Len.Some? && |share.extraNonce2| != ctx.expectedExtraNonce2Len.value then
        Some(ExtraNonce2Length(ctx.expectedExtraNonce2Len.value, |share.extraNonce2|))
      else match ctx.versionBits
        case None => None
        case Some(bits) =>
          match ctx.versionRollingMask
          case None => Some(RollingNotNegotiated)
          case Some(mask) => if Within(bits, mask) then None else Some(BitsOutsideMask(bits, mask))
  }

  /** The first part of `process_share`. */
  method CheckShape(share: Share) returns (error: Option<Reason>)
    ensures error == ShapeError(share)
  {
    error := None;
    if share.context.Some? {
      var ctx := share.context.value;
      if ctx.expectedExtraNonce2Len.Some? {
        var expected := ctx.expectedExtraNonce2Len.value;
        if |share.extraNonce2| != expected {
          return Some(ExtraNonce2Length(expected, |share.extraNonce2|));
        }
      }
      if ctx.versionBits.Some? {
        var bits := ctx.versionBits.value;
        if ctx.versionRollingMask.Some? {
          var mask := ctx.versionRollingMask.value;
          if !Within(bits, mask) {
            return Some(BitsOutsideMask(bits, mask));
          }
        } else {
          return Some(RollingNotNegotiated);
        }
      }
    }
  }

  /** The session's extranonce1, four zero bytes when the share carries none. */
  function SessionExtranonce(share: Share): Option<bytes> {
    if share.context.Some? && share.context.value.extranonce1Hex.Some? then
      HexDecode(share.context.value.extranonce1Hex.value)
    else Some(Zeros(4))
  }

  function Validated(job: Job, validator: Option<Validator>, difficulty: u32, share: Share): ShareResult {
    match validator
    case None => Accepted
    case Some(validate) =>
      match SessionExtranonce(share)
      case None => Malformed(BadExtranonce1)
      case Some(extranonce1) => validate(job, share, extranonce1, difficulty)
  }

  function Processed(r: Registry, validator: Option<Validator>, difficulty: u32, share: Share): ShareResult {
    if ShapeError(share).Some? then Rejected(ShapeError(share).value)
    else match Lookup(r, share.jobId)
      case None => UnknownJob(NoSuchJob(share.jobId))
      case Some(job) => Validated(job, validator, difficulty, share)
  }

  /** `JobAwareShareProcessor`. */
  class JobAwareShareProcessor {
    const registry: ActiveJobRegistry
    const buffer: RecentSharesBuffer
    const validator: Option<Validator>
    const difficulty: u32

    constructor (registry: ActiveJobRegistry, buffer: RecentSharesBuffer, validator: Option<Validator>, difficulty: u32)
      ensures this.registry == registry && this.buffer == buffer
      ensures this.validator == validator && this.difficulty == difficulty
    {
      this.registry, this.buffer, this.validator, this.difficulty := registry, buffer, validator, difficulty;
    }

    method ProcessShare(share: Share) returns (result: ShareResult)
      modifies buffer
      ensures result == Processed(registry.State(), validator, difficulty, share)
      ensures buffer.entries == Recorded(old(buffer.entries), AttemptOf(share, result))
    {
      var error := CheckShape(share);
      if error.Some? {
        result := Rejected(error.value);
        buffer.Record(share, result);
        return;
      }
      var job := registry.GetJob(share.jobId);
      if job.None? {
        result := UnknownJob(NoSuchJob(share.jobId));
        buffer.Record(share, result);
        return;
      }
      if validator.Some? {
        var extranonce1 := SessionExtranonce(share);
        if extranonce1.None? {
          result := Malformed(BadExtranonce1);
          buffer.Record(share, result);
          return;
        }
        result := validator.value(job.value, share, extranonce1.value, difficulty);
        buffer.Record(share, result);
      } else {
        result := Accepted;
        buffer.Record(share, result);
      }
    }
  }

  // With the coin's validator

  function AzcoinValidator(h: Hasher): Validator {
    (job: Job, share: Share, extranonce1: bytes, difficulty: u32) => Verdict(h, job, share, extranonce1, difficulty)
  }

  /** How the pool judges shares: the whole processor with the coin's validator. */
  function Judge(h: Hasher, difficulty: u32): (Registry, Share) -> ShareResult {
    (r: Registry, share: Share) => Processed(r, Some(AzcoinValidator(h)), difficulty, share)
  }

  /** The shape checks and the validator's version merge accept the same version bits. */
  lemma GatesAgree(version: bv32, share: Share)
    ensures ShapeError(share).None? <==>
              && (share.context.Some? && share.context.value.expectedExtraNonce2Len.Some? ==>
                    |share.extraNonce2| == share.context.value.expectedExtraNonce2Len.value)
              && ResolvedVersion(version, share).Ok?
  {
  }

  /** The header can be rebuilt and the result is its class. */
  predicate Classified(h: Hasher, job: Job, share: Share, extranonce1: bytes, difficulty: u32, result: ShareResult) {
    var header := SolvedHeader(h, job, share, extranonce1);
    header.Ok? && result == Classify(HashValue(h, header.value), job.nbits, difficulty)
  }

  /** How each result of the whole processor arises; in particular the validator itself never rejects. */
  lemma ProcessedCases(h: Hasher, r: Registry, difficulty: u32, share: Share)
    ensures var result := Processed(r, Some(AzcoinValidator(h)), difficulty, share);
            var job := Lookup(r, share.jobId);
            var e := SessionExtranonce(share);
            && (result.Rejected? <==> ShapeError(share).Some?)
            && (result.UnknownJob? <==> ShapeError(share).None? && job.None?)
            && (result.Malformed? <==> ShapeError(share).None? && job.Some? && e.None?)
            && (result.IsAccepted() || result.LowDifficulty? <==> ShapeError(share).None? && job.Some? && e.Some?)
            && (ShapeError(share).None? && job.Some? && e.Some? ==>
                  Classified(h, job.value, share, e.value, difficulty, result))
  {
    if Lookup(r, share.jobId).Some? {
      GatesAgree(Lookup(r, share.jobId).value.version, share);
    }
  }

  /** The checks that need no job, in the terms of the share: the extranonce2's length, and bits inside a mask. */
  predicate PassesChecks(share: Share) {
    share.context.Some? ==>
      var ctx := share.context.value;
      && (ctx.expectedExtraNonce2Len.Some? ==> |share.extraNonce2| == ctx.expectedExtraNonce2Len.value)
      && (ctx.versionBits.Some? ==>
            ctx.versionRollingMask.Some? && ctx.versionBits.value & !ctx.versionRollingMask.value == 0)
  }

  /** Which check fails first: the length, then the missing mask, then the bits. */
  lemma ShapeErrorExactly(share: Share)
    ensures ShapeError(share).None? <==> PassesChecks(share)
    ensures !PassesChecks(share) ==>
              var ctx := share.context.value;
              ShapeError(share).value
              == if ctx.expectedExtraNonce2Len.Some? && |share.extraNonce2| != ctx.expectedExtraNonce2Len.value then
                   ExtraNonce2Length(ctx.expectedExtraNonce2Len.value, |share.extraNonce2|)
                 else if ctx.versionRollingMask.None? then RollingNotNegotiated
                 else BitsOutsideMask(ctx.versionBits.value, ctx.versionRollingMask.value)
  {
  }

  /** The header of the share on its registered job, when there is one. */
  predicate Rebuilds(h: Hasher, r: Registry, share: Share, header: bytes) {
    && Lookup(r, share.jobId).Some? && SessionExtranonce(share).Some?
    && SolvedHeader(h, Lookup(r, share.jobId).value, share, SessionExtranonce(share).value) == Ok(header)
  }

  /** What the processor with the coin's validator answers to every share. */
  lemma JudgedExactly(h: Hasher, r: Registry, difficulty: u32, share: Share)
    ensures var result := Processed(r, Some(AzcoinValidator(h)), difficulty, share);
            var job, e := Lookup(r, share.jobId), SessionExtranonce(share);
            if !PassesChecks(share) then result.Rejected?
            else if job.None? then result == UnknownJob(NoSuchJob(share.jobId))
            else if e.None? then result == Malformed(BadExtranonce1)
            else
              && SolvedHeader(h, job.value, share, e.value).Ok?
              && VerdictIs(result, Le(h(SolvedHeader(h, job.value, share, e.value).value)), job.value.nbits, difficulty)
  {
    ShapeErrorExactly(share);
    ProcessedCases(h, r, difficulty, share);
    var job, e := Lookup(r, share.jobId), SessionExtranonce(share);
    if PassesChecks(share) && job.Some? && e.Some? {
      var header := SolvedHeader(h, job.value, share, e.value).value;
      HashReads(h, header);
      ClassIsVerdict(HashValue(h, header), job.value.nbits, difficulty);
    }
  }

  /**
   A share is accepted if and only if it passes the checks, its job is registered, its header can
   be rebuilt, and the header's hash is above the block target and at most the pool's.
   */
  lemma AcceptedExactly(h: Hasher, r: Registry, difficulty: u32, share: Share)
    ensures Processed(r, Some(AzcoinValidator(h)), difficulty, share) == Accepted <==>
              && PassesChecks(share)
              && exists header :: Rebuilds(h, r, share, header)
                   && Le(h(header)) > Target.TargetValue(Lookup(r, share.jobId).value.nbits)
                   && Le(h(header)) * (if difficulty == 0 then 1 else difficulty) <= 0xffff * Pow256(26)
  {
    JudgedExactly(h, r, difficulty, share);
    var job, e := Lookup(r, share.jobId), SessionExtranonce(share);
    if PassesChecks(share) && job.Some? && e.Some? {
      assert Rebuilds(h, r, share, SolvedHeader(h, job.value, share, e.value).value);
    }
  }

  /** Without a validator every share for a registered job that passes the checks is accepted. */
  lemma UnvalidatedExactly(r: Registry, difficulty: u32, share: Share)
    ensures Processed(r, None, difficulty, share) == Accepted <==>
              PassesChecks(share) && Lookup(r, share.jobId).Some?
  {
    ShapeErrorExactly(share);
  }

  /** A share that carries no extranonce1 is judged with four zero bytes. */
  lemma DefaultExtranonce(share: Share)
    requires share.context.Some? ==> share.context.value.extranonce1Hex.None?
    ensures SessionExtranonce(share) == Some([0, 0, 0, 0])
  {
    assert Zeros(4) == [0, 0, 0, 0];
  }

  /** A Block result means the rebuilt header's hash is at most the job's own target. */
  lemma BlockMeansSolved(h: Hasher, r: Registry, difficulty: u32, share: Share)
    requires Processed(r, Some(AzcoinValidator(h)), difficulty, share) == Block
    ensures Lookup(r, share.jobId).Some? && SessionExtranonce(share).Some?
    ensures Solves(h, Lookup(r, share.jobId).value, share, SessionExtranonce(share).value)
  {
    ProcessedCases(h, r, difficulty, share);
  }

  /** The share's rebuilt header meets the job's target. */
  predicate Solves(h: Hasher, job: Job, share: Share, extranonce1: bytes) {
    var header := SolvedHeader(h, job, share, extranonce1);
    header.Ok? && HashValue(h, header.value) <= Target.TargetValue(job.nbits)
  }
}
