/** The in-memory buffer of the most recent share attempts. */
module ShareLog {
  import opened Wrappers
  import opened Sequences
  import opened Jobs

  const MAX_RECENT: nat := 100

  datatype Attempt = Attempt(workerId: string, jobId: string, accepted: bool, rejectReason: Option<Reason>)

  /** The attempt that reports a share's worker, job and result: no reason exactly when it was accepted. */
  function AttemptOf(share: Share, result: ShareResult): (a: Attempt)
    ensures a.accepted <==> a.rejectReason.None?
    ensures a.accepted <==> result.IsAccepted()
    ensures a.workerId == share.workerId && a.jobId == share.jobId
    ensures a.rejectReason.Some? ==> a.rejectReason.value == result.reason
  {
    Attempt(share.workerId, share.jobId, result.IsAccepted(), result.RejectReason())
  }

  /** Appending to the full history, seen through the last 100. */
  function Recorded(entries: seq<Attempt>, a: Attempt): seq<Attempt> {
    (if |entries| >= MAX_RECENT then entries[1..] else entries) + [a]
  }

  /** `RecentSharesBuffer`. */
  class RecentSharesBuffer {
    var entries: seq<Attempt>

    constructor ()
      ensures entries == []
    {
      entries := [];
    }

    method Record(share: Share, result: ShareResult)
      modifies this
      ensures entries == Recorded(old(entries), AttemptOf(share, result))
    {
      var attempt := AttemptOf(share, result);
      if |entries| >= MAX_RECENT {
        entries := entries[1..];
      }
      entries := entries + [attempt];
    }

    method Recent() returns (recent: seq<Attempt>)
      ensures recent == entries
    {
      recent := entries;
    }
  }

  function RunRecord(entries: seq<Attempt>, attempts: seq<Attempt>): seq<Attempt>
    decreases |attempts|
  {
    if attempts == [] then entries else RunRecord(Recorded(entries, attempts[0]), attempts[1..])
  }

  /** Over any run the buffer is the last 100 attempts of the full history, in order. */
  lemma {:induction false} BufferIsLastAttempts(history: seq<Attempt>, attempts: seq<Attempt>)
    ensures RunRecord(LastN(history, 100), attempts) == LastN(history + attempts, 100)
    decreases |attempts|
  {
    if attempts == [] {
      assert history + attempts == history;
    } else {
      LastNSnoc(history, MAX_RECENT, attempts[0]);
      BufferIsLastAttempts(history + [attempts[0]], attempts[1..]);
      assert history + attempts == (history + [attempts[0]]) + attempts[1..];
    }
  }
}
