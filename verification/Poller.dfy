/** The job poller: broadcast a polled job when its id or height differs from the last one broadcast. */
module Poller {
  import opened Bytes
  import opened Wrappers
  import opened Jobs
  import opened TemplateMapper

  datatype Key = Key(jobId: string, height: u64)

  const START: Key := Key("", 0)

  function KeyOf(job: Job): Key {
    Key(job.jobId, job.Height())
  }

  /** The key after a poll, and what the poll broadcasts. */
  function Polled(last: Key, found: Option<Job>): (Key, Option<Job>) {
    if found.None? || KeyOf(found.value) == last then (last, None)
    else (KeyOf(found.value), found)
  }

  /** A poll broadcasts what it found exactly when that job's id or height differs from the last broadcast one's. */
  lemma PolledExactly(last: Job, found: Job)
    ensures Polled(KeyOf(last), Some(found)).1
         == if found.jobId != last.jobId || found.Height() != last.Height() then Some(found) else None
    ensures Polled(KeyOf(last), None).1 == None
  {
  }

  /** The first poll broadcasts anything but a job without id and height. */
  lemma FirstPoll(found: Job)
    ensures Polled(START, Some(found)).1
         == if found.jobId != "" || found.Height() != 0 then Some(found) else None
  {
  }

  /** The poller task of `main`. */
  class JobPoller {
    var lastJobId: string
    var lastHeight: u64

    function Last(): Key
      reads this
    {
      Key(lastJobId, lastHeight)
    }

    constructor ()
      ensures Last() == START
    {
      lastJobId, lastHeight := "", 0;
    }

    method Tick(found: Option<Job>) returns (broadcast: Option<Job>)
      modifies this
      ensures (Last(), broadcast) == Polled(old(Last()), found)
    {
      broadcast := None;
      if found.None? {
        return;
      }
      var job := found.value;
      var height := job.Height();
      if job.jobId != lastJobId || height != lastHeight {
        lastJobId := job.jobId;
        lastHeight := height;
        broadcast := Some(job);
      }
    }
  }

  function RunPolls(last: Key, polls: seq<Option<Job>>): seq<Job>
    decreases |polls|
  {
    if polls == [] then []
    else
      var (next, broadcast) := Polled(last, polls[0]);
      (if broadcast.Some? then [broadcast.value] else []) + RunPolls(next, polls[1..])
  }

  function Successes(polls: seq<Option<Job>>): seq<Job>
    decreases |polls|
  {
    if polls == [] then []
    else (if polls[0].Some? then [polls[0].value] else []) + Successes(polls[1..])
  }

  /** The key of the last job, `start` when there is none. */
  function LastKey(start: Key, jobs: seq<Job>): Key {
    if jobs == [] then start else KeyOf(jobs[|jobs| - 1])
  }

  /** The jobs whose key differs from the one right before them, the first one compared with `start`. */
  function Destutter(start: Key, jobs: seq<Job>): seq<Job>
    decreases |jobs|
  {
    if jobs == [] then []
    else
      var front, last := jobs[..|jobs| - 1], jobs[|jobs| - 1];
      Destutter(start, front) + (if KeyOf(last) == LastKey(start, front) then [] else [last])
  }

  lemma {:induction false} DestutterCons(start: Key, jobs: seq<Job>)
    requires jobs != []
    ensures Destutter(start, jobs)
         == (if KeyOf(jobs[0]) == start then [] else [jobs[0]]) + Destutter(KeyOf(jobs[0]), jobs[1..])
    decreases |jobs|
  {
    var front := jobs[..|jobs| - 1];
    if front == [] {
      assert Destutter(start, front) == [];
      assert Destutter(KeyOf(jobs[0]), jobs[1..]) == [];
    } else {
      DestutterCons(start, front);
      assert jobs[1..][..|jobs| - 2] == front[1..] && front[0] == jobs[0];
      assert LastKey(start, front) == LastKey(KeyOf(jobs[0]), front[1..]);
    }
  }

  /**
   Over any sequence of polls, failed ones included, the broadcasts are the successful polls
   with adjacent repeats of the key removed.
   */
  lemma {:induction false} PollerDestutters(last: Key, polls: seq<Option<Job>>)
    ensures RunPolls(last, polls) == Destutter(last, Successes(polls))
    decreases |polls|
  {
    if polls != [] {
      var jobs := Successes(polls);
      PollerDestutters(Polled(last, polls[0]).0, polls[1..]);
      if polls[0].Some? {
        DestutterCons(last, jobs);
        assert jobs[1..] == Successes(polls[1..]);
      } else {
        assert jobs == Successes(polls[1..]);
      }
    }
  }

  /** After a run the newest broadcast has the key of the newest successful poll: no change is missed. */
  lemma {:induction false} NoChangeMissed(start: Key, jobs: seq<Job>)
    ensures LastKey(start, Destutter(start, jobs)) == LastKey(start, jobs)
    decreases |jobs|
  {
    if jobs != [] {
      var front := jobs[..|jobs| - 1];
      NoChangeMissed(start, front);
      if KeyOf(jobs[|jobs| - 1]) == LastKey(start, front) {
        assert Destutter(start, jobs) == Destutter(start, front);
      }
    }
  }

  /** Two broadcasts in a row never have the same key. */
  lemma {:induction false} BroadcastsAlternate(start: Key, jobs: seq<Job>, k: nat)
    requires k < |Destutter(start, jobs)|
    ensures KeyOf(Destutter(start, jobs)[k]) != LastKey(start, Destutter(start, jobs)[..k])
    decreases |jobs|
  {
    var front := jobs[..|jobs| - 1];
    NoChangeMissed(start, front);
    var sent := Destutter(start, front);
    if k < |sent| {
      BroadcastsAlternate(start, front, k);
      assert Destutter(start, jobs)[..k] == sent[..k];
    } else {
      assert Destutter(start, jobs)[..k] == sent;
    }
  }

  /**
   Jobs made from templates are broadcast exactly when the height changes: a newer template for
   the same height, whatever its transactions, is not.
   */
  lemma SameHeightNotBroadcast(t: BlockTemplate, u: BlockTemplate, payout: bytes, a: Job, b: Job)
    requires TemplateToJob(t, payout) == Ok(a) && TemplateToJob(u, payout) == Ok(b)
    ensures Polled(KeyOf(a), Some(b)).1.Some? <==> t.height != u.height
  {
    JobIdIsHeight(t, u, payout, a, b);
    JobIdIsHeight(u, t, payout, b, a);
  }
}
