/** The pool's handler behind each session: register what was notified, process shares, submit solved blocks. */
module SubmitHandler {
  import opened Bytes
  import opened Wrappers
  import opened Transactions
  import opened Jobs
  import opened JobRegistry
  import opened ShareLog
  import opened ShareValidator
  import opened ShareProcessor
  import opened CandidateSubmit

  /** The solved job is no longer what the job source offers. */
  predicate Stale(job: Job, current: Option<Job>) {
    current.Some? && (current.value.jobId != job.jobId || current.value.Height() != job.Height())
  }

  function CandidateAt(h: Hasher, job: Job, share: Share, extranonce1: bytes): Option<BlockCandidate> {
    match SolvedHeader(h, job, share, extranonce1)
    case Err(_) => None
    case Ok(header) =>
      match Candidate(job, header, extranonce1, share.extraNonce2)
      case Ok(candidate) => Some(candidate)
      case Err(_) => None
  }

  /** The block built from a job and a share, when it can be built. */
  function Assembled(h: Hasher, job: Job, share: Share): Option<BlockCandidate> {
    match SessionExtranonce(share)
    case None => None
    case Some(extranonce1) => CandidateAt(h, job, share, extranonce1)
  }

  type Assembler = (Job, Share) -> Option<BlockCandidate>

  function AssembleWith(h: Hasher): Assembler {
    (job: Job, share: Share) => Assembled(h, job, share)
  }

  function MaybeCandidate(assemble: Assembler, r: Registry, share: Share, current: Option<Job>)
    : Option<BlockCandidate>
  {
    match Lookup(r, share.jobId)
    case None => None
    case Some(job) => if Stale(job, current) then None else assemble(job, share)
  }

  /** `Sv1SessionHandler`. The submitter's calls are recorded in order. */
  class Sv1SessionHandler {
    const h: Hasher
    const registry: ActiveJobRegistry
    const buffer: RecentSharesBuffer
    const processor: JobAwareShareProcessor
    var submitted: seq<BlockCandidate>

    ghost predicate Valid()
      reads this, registry
    {
      && processor.registry == registry && processor.buffer == buffer
      && processor.validator == Some(AzcoinValidator(h))
      && Consistent(registry.State())
    }

    constructor (h: Hasher, difficulty: u32)
      ensures Valid() && fresh(registry) && fresh(buffer)
      ensures this.h == h && processor.difficulty == difficulty
      ensures registry.State() == EMPTY_REGISTRY && buffer.entries == [] && submitted == []
    {
      var r := new ActiveJobRegistry();
      var b := new RecentSharesBuffer();
      var p := new JobAwareShareProcessor(r, b, Some(AzcoinValidator(h)), difficulty);
      this.h, registry, buffer, processor, submitted := h, r, b, p, [];
    }

    method OnNotifySent(job: Job)
      requires Valid()
      modifies registry
      ensures Valid()
      ensures registry.State() == Registered(old(registry.State()), job)
    {
      registry.Register(job);
    }

    /** `maybe_submit_block_candidate`: a second look at the registry, then the candidate. */
    method MaybeSubmitBlockCandidate(share: Share, current: Option<Job>)
      requires Valid()
      modifies `submitted
      ensures Valid()
      ensures submitted == Appended(old(submitted), MaybeCandidate(AssembleWith(h), registry.State(), share, current))
      ensures var entry := Lookup(registry.State(), share.jobId);
              && (entry.None? ==> submitted == old(submitted))
              && (entry.Some? && current.Some?
                  && (current.value.jobId != entry.value.jobId || current.value.Height() != entry.value.Height()) ==>
                    submitted == old(submitted))
              && (entry.Some? && (current.Some? ==> current.value.jobId == entry.value.jobId
                                                    && current.value.Height() == entry.value.Height()) ==>
                    submitted == Appended(old(submitted), Assembled(h, entry.value, share)))
    {
      var job := registry.GetJob(share.jobId);
      if job.None? || Stale(job.value, current) {
        return;
      }
      var extranonce1 := SessionExtranonce(share);
      if extranonce1.None? {
        return;
      }
      var header := SolvedHeader(h, job.value, share, extranonce1.value);
      if header.Err? {
        return;
      }
      var candidate := PrepareCandidate(job.value, header.value, extranonce1.value, share.extraNonce2);
      if candidate.Err? {
        return;
      }
      submitted := submitted + [candidate.value];
    }

    /** `on_submit`, with nothing in between its two reads of the registry. */
    method OnSubmit(share: Share, current: Option<Job>) returns (result: ShareResult)
      requires Valid()
      modifies `submitted, buffer
      ensures Valid()
      ensures result == Processed(registry.State(), Some(AzcoinValidator(h)), processor.difficulty, share)
      ensures buffer.entries == Recorded(old(buffer.entries), AttemptOf(share, result))
      ensures submitted ==
                if result.Block? then
                  Appended(old(submitted), MaybeCandidate(AssembleWith(h), registry.State(), share, current))
                else old(submitted)
    {
      result := processor.ProcessShare(share);
      if result.Block? {
        MaybeSubmitBlockCandidate(share, current);
      }
    }
  }

  function Appended<T>(xs: seq<T>, x: Option<T>): seq<T> {
    if x.Some? then xs + [x.value] else xs
  }

  /**
   A block whose header was rebuilt from this job and share, and whose first transaction is the
   coinbase it commits to.
   */
  ghost predicate Commits(h: Hasher, candidate: BlockCandidate, job: Job, share: Share, extranonce1: bytes) {
    var header := SolvedHeader(h, job, share, extranonce1);
    && header.Ok?
    && |header.value| == 80
    && CarriesCoinbase(candidate, header.value, job, MinerCoinbase(job, extranonce1, share.extraNonce2))
  }

  /**
   Every submitted block commits to its own coinbase, whatever happened to the registry since
   the share was judged.
   */
  lemma AssembledCommits(h: Hasher, job: Job, share: Share, candidate: BlockCandidate)
    requires LooksLegacy(job.coinbasePart1)
    requires Assembled(h, job, share) == Some(candidate)
    ensures SessionExtranonce(share).Some?
    ensures Commits(h, candidate, job, share, SessionExtranonce(share).value)
  {
    var e := SessionExtranonce(share).value;
    var header := SolvedHeader(h, job, share, e).value;
    CandidateIsCommitted(h, job, share, e, header, Candidate(job, header, e, share.extraNonce2), candidate);
  }

  lemma CandidateIsCommitted(h: Hasher, job: Job, share: Share, e: bytes, header: bytes,
                             r: Result<BlockCandidate, LocalError>, candidate: BlockCandidate)
    requires LooksLegacy(job.coinbasePart1)
    requires SolvedHeader(h, job, share, e) == Ok(header)
    requires r == Candidate(job, header, e, share.extraNonce2) && r == Ok(candidate)
    ensures Commits(h, candidate, job, share, e)
  {
    CandidateCarriesCoinbase(job, header, e, share.extraNonce2);
  }
}
