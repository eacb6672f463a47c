/** When a found block is too late: the job source has moved on to another id or height. */
module Outdated {
  import opened Bytes
  import opened Wrappers
  import opened Jobs
  import opened TemplateMapper
  import opened ShareValidator
  import opened ShareProcessor
  import opened JobRegistry
  import opened Session
  import opened Pool
  import opened PoolRules
  import opened PoolRuns
  import opened EndToEnd
  import opened FullSession

  /** What the job source offers is another job than the entry: its id or its height differs. */
  predicate MovedOn(entry: Job, offered: Job) {
    offered.jobId != entry.jobId || offered.Height() != entry.Height()
  }

  /** In any state and under any assembler: once the source has moved on, finishing sends nothing. */
  lemma OutdatedBlockIsDropped(s: Settings, w: World, i: nat, offered: Job, writes: Writes)
    requires Deciding(w, i)
    requires var entry := Lookup(w.shared.registry, w.peers[i].conn.pending.value.share.jobId);
             entry.Some? ==> MovedOn(entry.value, offered)
    ensures var next := Step(s, w, Finish(i, Some(offered), writes));
            next.past.sent == w.past.sent && next.shared.submitted == w.shared.submitted
  {
    NoteMatches(s, w.shared.registry, w.past, i, w.peers[i].conn.pending.value, Some(offered));
  }

  /** While it has not, or offers nothing, finishing sends exactly the block that can be assembled. */
  lemma CurrentBlockIsSent(s: Settings, w: World, i: nat, current: Option<Job>, writes: Writes, entry: Job)
    requires Deciding(w, i)
    requires Lookup(w.shared.registry, w.peers[i].conn.pending.value.share.jobId) == Some(entry)
    requires current.Some? ==> !MovedOn(entry, current.value)
    ensures var next := Step(s, w, Finish(i, current, writes));
            var won := w.peers[i].conn.pending.value;
            var candidate := s.assemble(entry, won.share);
            if candidate.Some? then
              && next.past.sent == w.past.sent + [SentBlock(i, won, entry, candidate.value)]
              && next.shared.submitted == w.shared.submitted + [candidate.value]
            else next.past.sent == w.past.sent && next.shared.submitted == w.shared.submitted
  {
    NoteMatches(s, w.shared.registry, w.past, i, w.peers[i].conn.pending.value, current);
  }

  lemma NoEntryNoBlock(s: Settings, w: World, i: nat, current: Option<Job>, writes: Writes)
    requires Deciding(w, i)
    requires Lookup(w.shared.registry, w.peers[i].conn.pending.value.share.jobId) == None
    ensures Step(s, w, Finish(i, current, writes)).past.sent == w.past.sent
  {
    NoteMatches(s, w.shared.registry, w.past, i, w.peers[i].conn.pending.value, current);
  }

  /** For template jobs moving on is a change of height. */
  lemma HeightMovesOn(t: BlockTemplate, u: BlockTemplate, payout: bytes, entry: Job, offered: Job)
    requires MadeFrom(t, payout, entry) && MadeFrom(u, payout, offered)
    ensures MovedOn(entry, offered) <==> t.height != u.height
  {
    JobIdIsHeight(t, u, payout, entry, offered);
    JobIdIsHeight(u, t, payout, offered, entry);
  }

  lemma FoundHasExtranonce(h: Hasher, poolDifficulty: u32, w: World, i: nat)
    requires PeersOk(Earned(h, poolDifficulty), w) && Deciding(w, i)
    ensures SessionExtranonce(w.peers[i].conn.pending.value.share).Some?
  {
    assert PeerOk(Earned(h, poolDifficulty), w.peers[i], |w.past.broadcasts|);
  }

  lemma FinishDecides(h: Hasher, initialDifficulty: u32, poolDifficulty: u32, payout: bytes, w: World, i: nat,
                      won: Pending, entry: Job, current: Option<Job>, writes: Writes)
    requires PeersOk(Earned(h, poolDifficulty), w) && RegistryOk(FromTemplates(payout), w)
    requires Deciding(w, i) && w.peers[i].conn.pending.value == won
    requires Lookup(w.shared.registry, won.share.jobId) == Some(entry)
    ensures SessionExtranonce(won.share).Some?
    ensures var sent := Step(Azcoin(h, initialDifficulty, poolDifficulty), w, Finish(i, current, writes)).past.sent;
            if (current.Some? ==> !MovedOn(entry, current.value))
               && CanBuild(entry, won.share, SessionExtranonce(won.share).value)
            then SendsBlock(h, payout, w.past.sent, sent, won, entry)
            else sent == w.past.sent
  {
    FoundHasExtranonce(h, poolDifficulty, w, i);
    FoundBlockIsSubmitted(h, initialDifficulty, poolDifficulty, payout, w, i, won, current, writes);
  }

  /**
   In every run over template jobs, when a session finishes a found block while the source
   offers a template's job: nothing is sent if that template's height is not the entry's, and
   if it is, exactly one block is sent, and soundly, if and only if it can be built.
   */
  lemma HeightDecides(h: Hasher, initialDifficulty: u32, poolDifficulty: u32, payout: bytes, events: seq<Event>,
                      i: nat, won: Pending, t: BlockTemplate, entry: Job, u: BlockTemplate, offered: Job,
                      writes: Writes)
    requires AllBring(FromTemplates(payout), events)
    requires var w := Run(Azcoin(h, initialDifficulty, poolDifficulty), START_WORLD, events);
             && Deciding(w, i) && w.peers[i].conn.pending.value == won
             && Lookup(w.shared.registry, won.share.jobId) == Some(entry)
    requires MadeFrom(t, payout, entry) && MadeFrom(u, payout, offered)
    ensures SessionExtranonce(won.share).Some?
    ensures var s := Azcoin(h, initialDifficulty, poolDifficulty);
            var w := Run(s, START_WORLD, events);
            var sent := Step(s, w, Finish(i, Some(offered), writes)).past.sent;
            if t.height == u.height && CanBuild(entry, won.share, SessionExtranonce(won.share).value) then
              SendsBlock(h, payout, w.past.sent, sent, won, entry)
            else sent == w.past.sent
  {
    var w := Run(Azcoin(h, initialDifficulty, poolDifficulty), START_WORLD, events);
    ReachableSound(h, initialDifficulty, poolDifficulty, payout, events);
    HeightMovesOn(t, u, payout, entry, offered);
    FinishDecides(h, initialDifficulty, poolDifficulty, payout, w, i, won, entry, Some(offered), writes);
  }

  /** And while the source offers nothing, exactly one block is sent if and only if it can be built. */
  lemma SilentSourceSends(h: Hasher, initialDifficulty: u32, poolDifficulty: u32, payout: bytes, events: seq<Event>,
                          i: nat, won: Pending, entry: Job, writes: Writes)
    requires AllBring(FromTemplates(payout), events)
    requires var w := Run(Azcoin(h, initialDifficulty, poolDifficulty), START_WORLD, events);
             && Deciding(w, i) && w.peers[i].conn.pending.value == won
             && Lookup(w.shared.registry, won.share.jobId) == Some(entry)
    ensures SessionExtranonce(won.share).Some?
    ensures var s := Azcoin(h, initialDifficulty, poolDifficulty);
            var w := Run(s, START_WORLD, events);
            var sent := Step(s, w, Finish(i, None, writes)).past.sent;
            if CanBuild(entry, won.share, SessionExtranonce(won.share).value) then
              SendsBlock(h, payout, w.past.sent, sent, won, entry)
            else sent == w.past.sent
  {
    var w := Run(Azcoin(h, initialDifficulty, poolDifficulty), START_WORLD, events);
    ReachableSound(h, initialDifficulty, poolDifficulty, payout, events);
    FinishDecides(h, initialDifficulty, poolDifficulty, payout, w, i, won, entry, None, writes);
  }
}
