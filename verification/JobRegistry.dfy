/**
 The registry of recently issued jobs: a map from job id to job and the order of insertion,
 bounded by 64. It refines a bounded first-in first-out queue that a clean job empties.
 */
module JobRegistry {
  import opened Wrappers
  import opened Sequences
  import opened Jobs

  const ACTIVE_JOBS_MAX: nat := 64

  datatype Registry = Registry(byId: map<string, Job>, order: seq<string>)

  const EMPTY_REGISTRY: Registry := Registry(map[], [])

  ghost predicate Distinct(ids: seq<string>) {
    forall i, j :: 0 <= i < j < |ids| ==> ids[i] != ids[j]
  }

  /** No id twice, the queue and the map agree, each key holds a job of that id, and the bound is kept. */
  ghost predicate Consistent(r: Registry) {
    && Distinct(r.order)
    && (forall id :: id in r.byId <==> id in r.order)
    && (forall id :: id in r.byId ==> r.byId[id].jobId == id)
    && |r.order| <= ACTIVE_JOBS_MAX
  }

  function Lookup(r: Registry, id: string): Option<Job> {
    if id in r.byId then Some(r.byId[id]) else None
  }

  /** The queue with its oldest entry dropped if it is full. */
  function MakeRoom(r: Registry): Registry {
    if |r.order| < ACTIVE_JOBS_MAX then r
    else Registry(r.byId - {r.order[0]}, r.order[1..])
  }

  function Insert(r: Registry, job: Job): Registry {
    if job.jobId in r.byId then r
    else
      var room := MakeRoom(r);
      Registry(room.byId[job.jobId := job], room.order + [job.jobId])
  }

  /** What registering a job does: a clean job empties the registry first, a known id changes nothing. */
  function Registered(r: Registry, job: Job): Registry {
    Insert(if job.cleanJobs then EMPTY_REGISTRY else r, job)
  }

  /** `ActiveJobRegistry`. */
  class ActiveJobRegistry {
    var byId: map<string, Job>
    var order: seq<string>

    function State(): Registry
      reads this
    {
      Registry(byId, order)
    }

    constructor ()
      ensures State() == EMPTY_REGISTRY
    {
      byId, order := map[], [];
    }

    method Register(job: Job)
      requires Consistent(State())
      modifies this
      ensures Consistent(State())
      ensures State() == Registered(old(State()), job)
    {
      RegisteredConsistent(State(), job);
      if job.cleanJobs {
        byId := map[];
        order := [];
      }
      if job.jobId in byId {
        return;
      }
      ghost var before := State();
      while |order| >= ACTIVE_JOBS_MAX
        invariant State() == before || (|before.order| == ACTIVE_JOBS_MAX && State() == MakeRoom(before))
        decreases |order|
      {
        var oldId := order[0];
        order := order[1..];
        byId := byId - {oldId};
      }
      order := order + [job.jobId];
      byId := byId[job.jobId := job];
    }

    method Contains(jobId: string) returns (found: bool)
      ensures found <==> Lookup(State(), jobId).Some?
    {
      found := jobId in byId;
    }

    method GetJob(jobId: string) returns (job: Option<Job>)
      ensures job == Lookup(State(), jobId)
    {
      job := if jobId in byId then Some(byId[jobId]) else None;
    }
  }

  /** Every registration keeps the registry consistent, and the job's id is registered afterwards. */
  lemma RegisteredConsistent(r: Registry, job: Job)
    requires Consistent(r)
    ensures Consistent(Registered(r, job))
    ensures job.jobId in Registered(r, job).byId
  {
    InsertConsistent(if job.cleanJobs then EMPTY_REGISTRY else r, job);
  }

  lemma InsertConsistent(r: Registry, job: Job)
    requires Consistent(r)
    ensures Consistent(Insert(r, job)) && job.jobId in Insert(r, job).byId
    ensures job.jobId !in r.byId ==> Insert(r, job).byId[job.jobId] == job
  {
    if job.jobId !in r.byId {
      var room := MakeRoom(r);
      RoomConsistent(r);
      var s := Insert(r, job);
      forall id ensures id in s.byId <==> id in s.order {
        assert id in s.order <==> id in room.order || id == job.jobId;
      }
    }
  }

  lemma RoomConsistent(r: Registry)
    requires Consistent(r)
    ensures Consistent(MakeRoom(r)) && |MakeRoom(r).order| < ACTIVE_JOBS_MAX
    ensures MakeRoom(r).byId.Keys <= r.byId.Keys
    ensures forall id :: id in MakeRoom(r).byId ==> MakeRoom(r).byId[id] == r.byId[id]
  {
    if |r.order| >= ACTIVE_JOBS_MAX {
      var s := MakeRoom(r);
      assert r.order == [r.order[0]] + s.order;
      forall id ensures id in s.byId <==> id in s.order {
        if id in s.order {
          var k :| 0 <= k < |s.order| && s.order[k] == id;
          assert r.order[k + 1] == id && id != r.order[0];
        }
      }
    }
  }

  /** After registering a job every entry is an old one or the job itself. */
  lemma RegisteredEntries(r: Registry, job: Job, id: string)
    requires Consistent(r) && id in Registered(r, job).byId
    ensures || (id in r.byId && Registered(r, job).byId[id] == r.byId[id])
            || (id == job.jobId && Registered(r, job).byId[id] == job)
  {
    RoomConsistent(r);
  }

  /** A clean job leaves exactly itself. */
  lemma CleanLeavesOnlyTheJob(r: Registry, job: Job)
    requires job.cleanJobs
    ensures Registered(r, job) == Registry(map[job.jobId := job], [job.jobId])
  {
  }

  // Runs

  function RunRegistry(r: Registry, jobs: seq<Job>): Registry
    decreases |jobs|
  {
    if jobs == [] then r else RunRegistry(Registered(r, jobs[0]), jobs[1..])
  }

  /** Every run from the empty registry ends consistent. */
  lemma {:induction false} RunConsistent(r: Registry, jobs: seq<Job>)
    requires Consistent(r)
    ensures Consistent(RunRegistry(r, jobs))
    decreases |jobs|
  {
    if jobs != [] {
      RegisteredConsistent(r, jobs[0]);
      RunConsistent(Registered(r, jobs[0]), jobs[1..]);
    }
  }

  /** Over any run an entry is kept, lost, or replaced by a job registered in the run. */
  lemma {:induction false} EntriesComeFromRegistering(r: Registry, jobs: seq<Job>, id: string)
    requires Consistent(r) && Lookup(RunRegistry(r, jobs), id).Some?
    ensures Lookup(RunRegistry(r, jobs), id) == Lookup(r, id) || Lookup(RunRegistry(r, jobs), id).value in jobs
    decreases |jobs|
  {
    if jobs != [] {
      var s := Registered(r, jobs[0]);
      RegisteredConsistent(r, jobs[0]);
      EntriesComeFromRegistering(s, jobs[1..], id);
      if id in s.byId {
        RegisteredEntries(r, jobs[0], id);
      }
    }
  }

  // The bounded queue

  /** The unbounded log of insertions since the last clean job: the reference the registry refines. */
  function LogStep(log: seq<string>, job: Job): seq<string> {
    var kept := if job.cleanJobs then [] else log;
    if job.jobId in LastN(kept, 64) then kept else kept + [job.jobId]
  }

  function RunLog(log: seq<string>, jobs: seq<Job>): seq<string>
    decreases |jobs|
  {
    if jobs == [] then log else RunLog(LogStep(log, jobs[0]), jobs[1..])
  }

  /** Over every run the registered ids are the last 64 insertions since the last clean job, in order. */
  lemma {:induction false} RegistryRefinesFifo(r: Registry, log: seq<string>, jobs: seq<Job>)
    requires Consistent(r) && r.order == LastN(log, 64)
    ensures RunRegistry(r, jobs).order == LastN(RunLog(log, jobs), 64)
    decreases |jobs|
  {
    if jobs != [] {
      RegisteredConsistent(r, jobs[0]);
      StepRefinesFifo(r, log, jobs[0]);
      RegistryRefinesFifo(Registered(r, jobs[0]), LogStep(log, jobs[0]), jobs[1..]);
    }
  }

  lemma StepRefinesFifo(r: Registry, log: seq<string>, job: Job)
    requires Consistent(r) && r.order == LastN(log, ACTIVE_JOBS_MAX)
    ensures Registered(r, job).order == LastN(LogStep(log, job), ACTIVE_JOBS_MAX)
  {
    var base := if job.cleanJobs then EMPTY_REGISTRY else r;
    var kept := if job.cleanJobs then [] else log;
    assert base.order == LastN(kept, ACTIVE_JOBS_MAX);
    if job.jobId !in base.byId {
      assert job.jobId !in base.order;
      if |base.order| == ACTIVE_JOBS_MAX {
        assert base.order[1..] + [job.jobId] == LastN(kept + [job.jobId], ACTIVE_JOBS_MAX);
      }
    }
  }

  // How long a job stays

  function JobIds(jobs: seq<Job>): set<string> {
    set j | j in jobs :: j.jobId
  }

  /** The ids inserted after position k. */
  function After(ids: seq<string>, k: nat): set<string>
    requires k < |ids|
  {
    set j | k < j < |ids| :: ids[j]
  }

  lemma {:induction false} AfterSize(ids: seq<string>, k: nat)
    requires k < |ids| && Distinct(ids)
    ensures |After(ids, k)| == |ids| - 1 - k
    decreases |ids|
  {
    if k < |ids| - 1 {
      var front, last := ids[..|ids| - 1], ids[|ids| - 1];
      AfterSize(front, k);
      assert ids == front + [last];
      AfterShift(front, ids, k, 0, last);
      assert last !in After(front, k);
    } else {
      assert After(ids, k) == {};
    }
  }

  lemma AfterShift(ids: seq<string>, next: seq<string>, k: nat, dropped: nat, id: string)
    requires dropped <= k < |ids| && next == ids[dropped..] + [id]
    ensures After(next, k - dropped) == After(ids, k) + {id}
  {
    forall x | x in After(next, k - dropped) ensures x in After(ids, k) + {id} {
      var j :| k - dropped < j < |next| && next[j] == x;
      if j < |next| - 1 {
        assert ids[j + dropped] == x;
      }
    }
    forall x | x in After(ids, k) + {id} ensures x in After(next, k - dropped) {
      if x in After(ids, k) {
        var j :| k < j < |ids| && ids[j] == x;
        assert next[j - dropped] == x;
      } else {
        assert next[|next| - 1] == x;
      }
    }
  }

  lemma {:induction false} SubsetSize(a: set<string>, b: set<string>)
    requires a <= b
    ensures |a| <= |b|
  {
    if a != {} {
      var x :| x in a;
      SubsetSize(a - {x}, b - {x});
    }
  }

  /** The job is registered, at position k, and everything behind it is among `newer`. */
  ghost predicate HeldAt(r: Registry, job: Job, k: nat, newer: set<string>) {
    k < |r.order| && r.order[k] == job.jobId && Lookup(r, job.jobId) == Some(job) && After(r.order, k) <= newer
  }

  /** While fewer than 64 ids can be newer, a held job is not the next to be evicted. */
  lemma NotNextOut(r: Registry, job: Job, id: string, k: nat, newer: set<string>)
    requires Consistent(r) && HeldAt(r, job, k, newer) && id !in r.order && id in newer && |newer| < ACTIVE_JOBS_MAX
    ensures |r.order| >= ACTIVE_JOBS_MAX ==> k > 0
  {
    AfterSize(r.order, k);
    SubsetSize(After(r.order, k) + {id}, newer);
  }

  lemma ShiftKeeps(r: Registry, job: Job, other: Job, k: nat, newer: set<string>)
    requires Consistent(r) && HeldAt(r, job, k, newer) && other.jobId !in r.byId && other.jobId in newer
    requires k > 0 && |r.order| >= ACTIVE_JOBS_MAX
    ensures HeldAt(Insert(r, other), job, k - 1, newer)
  {
    var s := Insert(r, other);
    assert s.order[k - 1] == r.order[k] && job.jobId != r.order[0];
    AfterShift(r.order, s.order, k, 1, other.jobId);
  }

  lemma AppendKeeps(r: Registry, job: Job, other: Job, k: nat, newer: set<string>)
    requires Consistent(r) && HeldAt(r, job, k, newer) && other.jobId !in r.byId && other.jobId in newer
    requires |r.order| < ACTIVE_JOBS_MAX
    ensures HeldAt(Insert(r, other), job, k, newer)
  {
    assert r.order[0..] == r.order;
    AfterShift(r.order, Insert(r, other).order, k, 0, other.jobId);
  }

  /** Registering another job that is not clean keeps a held job while fewer than 64 ids can be newer. */
  lemma OneMoreKeeps(r: Registry, job: Job, other: Job, k: nat, newer: set<string>) returns (k': nat)
    requires Consistent(r) && !other.cleanJobs && HeldAt(r, job, k, newer)
    requires |newer| < ACTIVE_JOBS_MAX && (other.jobId != job.jobId ==> other.jobId in newer)
    ensures HeldAt(Registered(r, other), job, k', newer)
  {
    k' := k;
    if other.jobId !in r.byId {
      NotNextOut(r, job, other.jobId, k, newer);
      if |r.order| >= ACTIVE_JOBS_MAX {
        ShiftKeeps(r, job, other, k, newer);
        k' := k - 1;
      } else {
        AppendKeeps(r, job, other, k, newer);
      }
    }
  }

  lemma {:induction false} HeldThroughRun(r: Registry, job: Job, jobs: seq<Job>, k: nat, newer: set<string>)
    requires Consistent(r) && HeldAt(r, job, k, newer)
    requires forall j :: j in jobs ==> !j.cleanJobs && (j.jobId == job.jobId || j.jobId in newer)
    requires |newer| < ACTIVE_JOBS_MAX
    ensures Lookup(RunRegistry(r, jobs), job.jobId) == Some(job)
    decreases |jobs|
  {
    if jobs != [] {
      assert jobs[0] in jobs;
      RegisteredConsistent(r, jobs[0]);
      var k' := OneMoreKeeps(r, job, jobs[0], k, newer);
      HeldThroughRun(Registered(r, jobs[0]), job, jobs[1..], k', newer);
    }
  }

  /**
   An inserted job stays retrievable, unchanged, through any run of non-clean registrations
   with fewer than 64 distinct other ids.
   */
  lemma InsertedJobStays(r: Registry, job: Job, jobs: seq<Job>)
    requires Consistent(r) && (job.cleanJobs || job.jobId !in r.byId)
    requires forall j :: j in jobs ==> !j.cleanJobs
    requires |JobIds(jobs) - {job.jobId}| < 64
    ensures Lookup(RunRegistry(Registered(r, job), jobs), job.jobId) == Some(job)
  {
    var s := Registered(r, job);
    RegisteredConsistent(r, job);
    var k := |s.order| - 1;
    assert After(s.order, k) == {};
    HeldThroughRun(s, job, jobs, k, JobIds(jobs) - {job.jobId});
  }

  function Ids(jobs: seq<Job>): (r: seq<string>)
    ensures |r| == |jobs|
  {
    if jobs == [] then [] else [jobs[0].jobId] + Ids(jobs[1..])
  }

  lemma {:induction false} FreshIdsAppend(log: seq<string>, jobs: seq<Job>)
    requires forall j :: j in jobs ==> !j.cleanJobs
    requires Distinct(log + Ids(jobs))
    ensures RunLog(log, jobs) == log + Ids(jobs)
    decreases |jobs|
  {
    if jobs != [] {
      var all, id := log + Ids(jobs), jobs[0].jobId;
      assert all[|log|] == id;
      forall i | 0 <= i < |log| ensures log[i] != id {
        assert all[i] == log[i];
      }
      assert jobs[0] in jobs;
      assert all == (log + [id]) + Ids(jobs[1..]);
      FreshIdsAppend(log + [id], jobs[1..]);
    } else {
      assert log + [] == log;
    }
  }

  /** And 64 new ids push it out: after them it is gone. */
  lemma SixtyFourNewIdsEvict(r: Registry, job: Job, jobs: seq<Job>)
    requires Consistent(r) && (job.cleanJobs || job.jobId !in r.byId)
    requires forall j :: j in jobs ==> !j.cleanJobs
    requires |jobs| >= 64 && Distinct(Registered(r, job).order + Ids(jobs))
    ensures Lookup(RunRegistry(Registered(r, job), jobs), job.jobId) == None
  {
    NewestIsLast(r, job, Registered(r, job));
    PushedOut(Registered(r, job), job.jobId, jobs);
  }

  lemma NewestIsLast(r: Registry, job: Job, s: Registry)
    requires Consistent(r) && (job.cleanJobs || job.jobId !in r.byId) && s == Registered(r, job)
    ensures Consistent(s) && s.order != [] && s.order[|s.order| - 1] == job.jobId
  {
    RegisteredConsistent(r, job);
  }

  lemma PushedOut(s: Registry, id: string, jobs: seq<Job>)
    requires Consistent(s) && s.order != [] && s.order[|s.order| - 1] == id
    requires forall j :: j in jobs ==> !j.cleanJobs
    requires |jobs| >= ACTIVE_JOBS_MAX && Distinct(s.order + Ids(jobs))
    ensures Lookup(RunRegistry(s, jobs), id) == None
  {
    RegistryRefinesFifo(s, s.order, jobs);
    FreshIdsAppend(s.order, jobs);
    RunConsistent(s, jobs);
    var all := s.order + Ids(jobs);
    assert all[|s.order| - 1] == id;
    NotAmongLast(all, |s.order| - 1, ACTIVE_JOBS_MAX);
  }

  lemma NotAmongLast(all: seq<string>, p: nat, n: nat)
    requires Distinct(all) && p + n < |all|
    ensures all[p] !in LastN(all, n)
  {
    var last := LastN(all, n);
    forall i | 0 <= i < |last| ensures last[i] != all[p] {
      assert last[i] == all[|all| - n + i];
    }
  }
}
