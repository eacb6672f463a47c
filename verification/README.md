# From mining.submit to submitblock: a model of the AZCOIN Stratum pool

This project models the path of a share through the pool, and the pool around it, and proves
what that path promises. Three components are modelled and then joined.

**Target arithmetic and the header** (`Bytes`, `Target`, `ShareValidator`, `SameWork`, `Merkle`).
The validator rebuilds the coinbase, folds the branch, merges version bits and prints the
80-byte header; it expands compact nBits, divides a 256-bit target by a difficulty with base-256
long division and compares byte arrays. The loops work on arrays as in the source and are proved
to have exact integer meanings. The double hash is a parameter: any total function from byte
strings to 32 bytes. Nothing else is assumed about it, so results either hold under every such
function or say "or here are two inputs with one hash".

**Byte formats** (`Hex`, `Codecs`, `Transactions`, `Coinbase`, `CoinbaseSplit`,
`TemplateMapper`, `TemplateAdapter`, `Notify`, `RawBlock`, `CandidateSubmit`). Script numbers,
pushes, transactions with and without witness data, CompactSize, the search for the extranonce
placeholder, witness restoration and the raw block. The transaction format follows BIP 144,
sections "Serialization" and "Hashes"; BIP 34, section "Specification", is the height in the
coinbase and BIP 141, section "Commitment structure", the witness nonce. The `bitcoin` crate
is not part of this model: its parser and printer are written from those documents as a small
library of codecs, each proved to print and parse inversely in both directions.

**The pool as a state machine** (`Jobs`, `JobRegistry`, `ShareLog`, `ShareProcessor`,
`VersionRolling`, `DomainMapper`, `SubmitHandler`, `Session`, `SessionRules`, `Broadcast`,
`Poller`, `Pool`, `PoolRules`, `PoolRuns`, `Replies`, `Answers`). What the source updates in place is a class here
(registry, share buffer, processor, handler, counter, session, poller), and each method is
proved equal to a function on values. `Pool` interleaves those functions: any number of
sessions, any order of steps, any line from a miner, any write failing, any answer of the job
source. A submit that finds a block is two steps, because the source reads the registry twice
and other sessions run in between. The history fields of `Pool.Past` only record; no step reads
them.

`EndToEnd`, `FullSession`, `TwoSessions`, `Outdated`, `Judging`, `Commitment`, `CommittedRuns`,
`Uniqueness` and `CrossJobs` join the three: what is submitted and when, one miner's path from connecting to a
submitted block, which job a share is judged against, what a block's header commits to, and that
two sessions of which at least one subscribed are not both credited for the same work.
`PlainTemplates` builds the templates that the runs in them start from.

## What the code turns out not to promise

- **Two registry reads.** A template job's id is its height, and every authorize registers the
  current template anew, clean. A found block is submitted exactly when its id still has an
  entry that is current and can be built (`EndToEnd.FoundBlockIsSubmitted`), but it is built from
  whatever entry the second read finds. It is sure to meet the target exactly when that entry
  gives the share the same version, previous hash, nBits, coinbase and branch as the first did
  (`SameWork.SolvesCarriesOver`); a refreshed time is harmless. `TwoSessions.ReplacedBlockExactly`
  walks the run, and `TwoSessions.ReplacedBlockCanMiss` gives templates for which it submits a
  block that misses.
- **One job for the whole pool.** All template jobs are clean, so the registry only ever holds
  the one registered last, by whichever session. A session's share for the job it was sent is
  judged against that job if and only if it is also the last one any session was sent
  (`Judging.SharesJudgedOnLast`). So a share that solves the only job its session was ever sent
  may be credited on another session's job (`TwoSessions.SharedIdIsReplaced`) or refused as too
  high (`TwoSessions.SolvedShareIsRefused`, with the exact condition in
  `TwoSessions.CrossedShareExactly`). The results about 64 registered jobs are about other job
  sources. A newer template of the same height is never broadcast
  (`Poller.SameHeightNotBroadcast`).
- **Compact targets.** The comment at `crates/coin_azcoin/src/share_validator.rs:213` gives
  `mantissa * 256^(exponent - 3)` for every nBits. The code agrees with it exactly in the cases
  of `Target.CompactExpansionExact`: below exponent 3 it shifts left where the formula divides,
  and above 32 the byte offset underflows.
- **The placeholder split** is exact except for one height, 0xefbeadde0cb0cefa, whose script
  number contains the placeholder, and for flags pushes that contain it
  (`CoinbaseSplit.FirstMatchIntended`, an equivalence).
- **The branch** lists the ids of the template's transactions, without those whose text does not
  decode to 32 bytes (`TemplateMapper.BranchIsWhole`), where a branch should list the siblings on
  the coinbase's path. With true ids the header of a submitted block commits to all of the
  block's transactions when there is at most one besides the coinbase; with more, only if two
  explicit inputs collide or the last id lies on an explicit cycle of the hash
  (`Commitment.SubmittedBlocksCommit`). Whatever the transactions are, it does so under every
  hash function exactly when there is at most one (`CommittedRuns.TrueIdsCommitExactly`, over a
  run of the pool whose template lists the ids that the same hash gives), and
  `CommittedRuns.BlockLeavesOneOut` gives two transactions, a hash, and the run whose submitted
  block does not.
- **Unsubscribed sessions** may authorize and submit; their shares carry no extranonce at all
  (`SessionRules.GatedShareFills`). Two of them that submit the same time and nonce are both
  credited for one header, without any collision (`TwoSessions.UnsubscribedSessionsOverlap`); if
  at least one of two sessions subscribed it takes a collision, on one job
  (`Uniqueness.CreditsNeverOverlap`) or on two (`CrossJobs.CreditsNeverOverlapAcrossJobs`).

## Model

| member | source | states |
|---|---|---|
| EndToEnd.SubmittedBlocksAreSolved | crates/azcoin-pool/src/sv1_handler.rs:20-150 | over every run with jobs made from templates, every block handed to the submitter parses, starts with an 80-byte header that carries the job's previous hash and nBits, folds the branch from the txid of its own first transaction, and rolls only standard version bits; it meets the target of the job it was built from exactly when the share solves that job, and always when the two registry reads give the share the same header; for a subscribed session and a cleanly splitting template the first transaction is a coinbase that pays the template's value to the payout script, with the template's height, its flags and the session's extranonces in the script; and it has the witness nonce exactly when the template has a commitment |
| EndToEnd.SubmittedBlocksPay | crates/coin_azcoin/src/coinbase_builder.rs:29-42 | the last two spelled out: the first witness is one item of 32 zero bytes if and only if the template has a commitment; the first output has the template's value and the payout script, and a second one, of value zero and with the commitment's script, is there exactly for a commitment |
| SameWork.SolvesCarriesOver | crates/coin_azcoin/src/share_validator.rs:91-140 | for every two jobs: a share that solves the first solves the second under every hash function if and only if version, previous hash, nBits, coinbase and branch come out the same for it; a refreshed time does not matter |
| TwoSessions.ReplacedBlockExactly | crates/azcoin-pool/src/sv1_handler.rs:21-93 | in the run where a second session is sent a newer template of the same height before the first miner's submit finishes, the submitted block meets its target under every hash exactly when the two jobs give the share the same header |
| TwoSessions.ReplacedBlockCanMiss | crates/azcoin-pool/src/sv1_handler.rs:21-93 | and two templates of one height with different previous hashes are enough for that run to submit a block that misses its target |
| EndToEnd.FoundBlockIsSubmitted | crates/azcoin-pool/src/sv1_handler.rs:138-149 | a found block is submitted, exactly once and with all of the above, if and only if the registry has an entry under the share's id, the job source offers nothing or a job of the entry's id and height, the coinbase parses and the template transactions parse |
| Outdated.OutdatedBlockIsDropped | crates/azcoin-pool/src/sv1_handler.rs:27-41 | in any state and under any assembler, once the job source offers another id or another height than the entry's, finishing a found block submits nothing |
| Outdated.CurrentBlockIsSent | crates/azcoin-pool/src/sv1_handler.rs:27-85 | while it offers that id and height, or nothing, exactly the block that can be assembled is submitted |
| Outdated.NoEntryNoBlock | crates/azcoin-pool/src/sv1_handler.rs:22-25 | without an entry nothing is submitted |
| Outdated.HeightDecides | crates/azcoin-pool/src/sv1_handler.rs:27-41 | over every run with template jobs: with a template's job on offer a found block is submitted if and only if the two templates have one height and it can be built |
| Outdated.SilentSourceSends | crates/azcoin-pool/src/sv1_handler.rs:27-41 | and with nothing on offer, if and only if it can be built |
| EndToEnd.SolvedBlockBuilds | crates/coin_azcoin/src/candidate_submit.rs:41-85 | for a cleanly splitting template and a subscribed session the block can be built exactly when every template transaction parses |
| FullSession.MinerToBlock | crates/protocol_sv1/src/server.rs:117-236 | from an empty pool, a miner that connects, subscribes, is sent a template's job and submits a share whose header meets the target gets exactly one block submitted, with all of the above |
| FullSession.FoundBlockSurvives | crates/azcoin-pool/src/sv1_handler.rs:138-149 | from any reachable state and for any session: its share is judged a block, then anything happens except that it finishes or that a job is registered, then it finishes; exactly one block is sent, built from the job the share was judged against and meeting its target, if and only if that job can be built and is current |
| PlainTemplates.PlainTemplateMakesJob | crates/coin_azcoin/src/template_mapper.rs:17-52 | templates as those runs need them exist, for every height but one, every payout script, any transactions that parse and any ids |
| EndToEnd.AzcoinTrusted | crates/pool_core/src/services.rs:336-411 | a share is accepted only if it passes the shape checks, its job is registered, its header can be rebuilt, and the result is the class of that header |
| Judging.SharesJudgedOnLast | crates/pool_core/src/services.rs:37-53 | over every run with template jobs, each share is judged against the one job the whole pool registered last: against the job its own session was last sent if and only if that is the one, otherwise against another job of the same id or as unknown |
| TwoSessions.SharedIdIsReplaced | crates/pool_core/src/services.rs:37-53 | a run in which a session's share for the only job it was ever sent is credited as a block on a job that only another session was sent |
| TwoSessions.CrossedShareExactly | crates/pool_core/src/services.rs:37-53 | in that run, for every two jobs of one id, a share that solves its session's own job is credited under every hash function exactly when the two jobs give it the same header |
| TwoSessions.SolvedShareIsRefused | crates/pool_core/src/services.rs:37-53 | and two templates of one height with different previous hashes are enough for a share that solves its session's own job to be answered that its hash is too high, with no credit |
| Judging.CreditsAreWork | crates/coin_azcoin/src/share_validator.rs:32-64 | over every run each block share has a header hash, as a little-endian number, of at most the job's target, and each accepted share one whose product with the pool difficulty (at least 1) is at most 0xffff * 256^26, on a job that was announced right after a line with the initial difficulty |
| Uniqueness.CreditsNeverOverlap | crates/protocol_sv1/src/server.rs:326-336 | over every run with at most 2^32 subscribes, two credits of different sessions on one job of any kind, at least one of them with an extranonce2, whose shares rebuild the same header yield an explicit hash collision, whenever they were given |
| CrossJobs.CreditsNeverOverlapAcrossJobs | crates/protocol_sv1/src/server.rs:326-336 | the same for credits on any two jobs made from templates that split cleanly, whatever their times, branches and coinbases: when both have an extranonce2, and also when only one has, as long as fewer than 2^32 - 1 subscribes were made and the payout script is longer than two bytes |
| Uniqueness.CreditedApart | crates/protocol_sv1/src/server.rs:326-336 | the credited shares of two sessions carry different extranonces exactly when at least one of them has an extranonce2 |
| TwoSessions.UnsubscribedSessionsOverlap | crates/protocol_sv1/src/server.rs:366-396 | that condition cannot be dropped: for every job and every hash, two unsubscribed sessions that submit the same time and nonce are both credited with a block for one header with one coinbase |
| TwoSessions.UnsubscribedOverlapHappens | crates/protocol_sv1/src/server.rs:366-396 | and for every plain template there is a hash for which that run takes place |
| Uniqueness.SessionsNeverOverlap | crates/protocol_sv1/src/server.rs:326-336 | the same for any two shares that two sessions can submit at one time, credited or not |
| Commitment.SubmittedBlocksCommit | crates/coin_azcoin/src/template_mapper.rs:123-140 | over every run, for a submitted block whose template gives true ids: with at most one template transaction the header's Merkle field is the root over the ids of all the block's own transactions; with more it is only by an explicit collision or an explicit hash cycle |
| CommittedRuns.TrueIdsCommitExactly | crates/coin_azcoin/src/template_mapper.rs:123-140 | for every list of transactions that parse: in one miner's run over the template that lists their true ids, the submitted block's header commits to all of its transactions under every hash function if and only if there is at most one besides the coinbase |
| CommittedRuns.BlockLeavesOneOut | crates/coin_azcoin/src/template_mapper.rs:123-140 | two different transactions and a hash for which that run's one submitted block does not commit to them all |
| Commitment.AnyBranch | crates/coin_azcoin/src/share_validator.rs:156-164 | for a submitted block and whatever its branch lists, an empty one included, exactly when the header commits to all of the block's transactions |
| PoolRuns.NoCreditForUnissuedWork | crates/protocol_sv1/src/server.rs:194-233 | on every interleaved run the registry holds only jobs whose difficulty and then job lines were written to some session, and every accepted or block share is for such a job and from a session authorized under its own username |
| Replies.RepliesAreCredits | crates/protocol_sv1/src/server.rs:397-425 | over every run and under every judge, the accepting share replies on a connection are its session's credits, in order: all of them while it is live and waits for no submit, all but at most the last otherwise |
| Replies.ReplyIsCredit | crates/protocol_sv1/src/server.rs:397-425 | so every accepting share reply a miner was sent is for a credit of its own session with that result |
| PoolRuns.ExtranoncesOverRuns | crates/protocol_sv1/src/server.rs:326-336 | in every reachable state a session has 8 hex digits that decode to 4 bytes and size 4 if it subscribed, and nothing otherwise; within 2^32 subscribes all extranonces are different |
| PoolRuns.ExtranonceRepeats | crates/protocol_sv1/src/server.rs:327-328 | two subscribes get the same text exactly when the wrapping counter had the same value |
| PoolRuns.DrainReachesNewest | crates/protocol_sv1/src/server.rs:206-234 | with the feed quiet, a live authorized session that receives as often as it is owed (at most 17 times) ends with the newest job's id, under any interleaving of the others |
| PoolRuns.NewSessionIsOwedNothing | crates/protocol_sv1/src/server.rs:106 | a new session is owed no earlier broadcast |
| PoolRuns.HandledIdStays | crates/protocol_sv1/src/server.rs:218-233 | after a session handles a job, its last notified id is that job's until its next receive or authorize |
| PoolRuns.LinesOverRuns | crates/protocol_sv1/src/server.rs:240-272 | on every connection, whatever lines it sent, a job line follows a difficulty line with the session difficulty and is for a registered job, two job lines with no authorize in between have different ids, and the recorded last id is that of the last job line |
| PoolRuns.BroadcastsAreDestuttered | crates/azcoin-pool/src/main.rs:82-107 | over every run the broadcasts are exactly the successful polls with adjacent repeats removed |
| PoolRuns.BufferOverRuns | crates/pool_core/src/share_buffer.rs:28-45 | over every run and under every judge the buffer is the last 100 attempts of the full history, in order |
| PoolRuns.OneJobPoolWide | crates/pool_core/src/services.rs:39-42 | over every run with clean jobs only, the registry holds exactly the job registered last, by whichever session |
| PoolRuns.JudgedAgainst | crates/pool_core/src/services.rs:376-385 | so a session's last notified id finds that session's own job if and only if it is the pool's last registered one |
| PoolRuns.ReachableOk | crates/protocol_sv1/src/server.rs:123-236 | every reachable state satisfies all the rules below at once |
| PoolRules.StepShape | crates/protocol_sv1/src/server.rs:128-235 | every step is a new connection, a poll, nothing, or the move of exactly one session, which extends that session's lines and changes the registry only by registering a job it announced |
| PoolRules.RegistryStep | crates/azcoin-pool/src/sv1_handler.rs:134-136 | every step keeps the registry consistent and free of unannounced jobs |
| PoolRules.LoggedStep | crates/protocol_sv1/src/server.rs:194-233 | every step leaves the registry as registering the logged jobs in order does, and announces only logged jobs |
| PoolRules.TextsStep | crates/protocol_sv1/src/server.rs:390-395 | every step keeps each credit with an extranonce2 carrying an extranonce1 issued to its own session |
| PoolRules.CreditsStep | crates/protocol_sv1/src/server.rs:366-404 | every step credits at most one share, and only rightly |
| PoolRules.SentStep | crates/azcoin-pool/src/sv1_handler.rs:21-78 | every step submits at most one block, built from a registered job for a share judged a block |
| PoolRules.LedgerStep | crates/protocol_sv1/src/server.rs:326-333 | every step keeps the extranonces issued in counting order and each subscribed session holding one issued to it |
| Session.Sv1Session.HandleRequest | crates/protocol_sv1/src/server.rs:130-205 | a whole line in place, also one that is not JSON, names an unknown method or has bad fields: the new state, the lines written, and what changes in registry, buffer, counter and submissions, under any failing write |
| Session.Sv1Session.HandleBroadcast | crates/protocol_sv1/src/server.rs:206-234 | a received job in place: skipped when unauthorized or already notified, else difficulty, job, last id and registration in that order |
| Session.Sv1Session.Dispatch | crates/protocol_sv1/src/server.rs:284-429 | the reply, the job to notify and every state change of a command, and the error replies without any |
| Session.Sv1Session.PushJob | crates/protocol_sv1/src/server.rs:240-272 | a job is registered and remembered only after both lines were written |
| Session.ExtranonceCounter.FetchAdd | crates/protocol_sv1/src/server.rs:327 | returns the old value and wraps at 2^32 |
| Session.ServedIsDispatched | crates/protocol_sv1/src/server.rs:169-200 | deciding, submitting and replying as two steps with nothing in between is dispatch, reply, notify |
| Answers.GateExactly | crates/protocol_sv1/src/server.rs:358-404 | a submit is let through if and only if the session is authorized under its name and any version bits were negotiated; the share then carries the submission, the session's extranonce and size, and the negotiated mask; otherwise the first failing check is named |
| Answers.ConfigureAnswers | crates/protocol_sv1/src/server.rs:303-325 | a configure sets what may be rolled to what its reply says, and one without version rolling ends it |
| Answers.SubscribeAnswers | crates/protocol_sv1/src/server.rs:326-336 | a subscribe hands out the counter as eight digits with 4 bytes for the miner, and advances it |
| Answers.AuthorizeAnswers | crates/protocol_sv1/src/server.rs:338-357 | an authorize is answered first; then come the difficulty and the job on offer, which is remembered and registered |
| Answers.ShareAnswers | crates/protocol_sv1/src/server.rs:396-427 | a share is answered with its verdict and logged under its worker and job with the same verdict |
| Answers.DenialAnswers | crates/protocol_sv1/src/server.rs:366-389 | a share that is not let through is denied and leaves no other trace |
| Answers.BadLineAnswers | crates/protocol_sv1/src/server.rs:151-167 | a line that is not JSON, an unknown method and a bad field each get their error and leave no other trace |
| Answers.LineExactly | crates/protocol_sv1/src/server.rs:151-167 | which of these a line is |
| Answers.BroadcastAnswers | crates/protocol_sv1/src/server.rs:218-233 | a broadcast job is sent, remembered and registered unless the session is not authorized or has that id |
| SessionRules.CommandKeeps | crates/protocol_sv1/src/server.rs:302-428 | every request keeps the session's extranonce and rolling rules and the order of its lines, and only an authorize can register a job |
| SessionRules.JobKeeps | crates/protocol_sv1/src/server.rs:218-233 | every broadcast job keeps them too, and leaves a live authorized session with that id as its last |
| SessionRules.GatedShareFills | crates/pool_core/src/services.rs:337-350 | a share that passes the session's gate and the shape checks carries 4 and 4 bytes of extranonce or none at all, and only version bits of the standard mask |
| DomainMapper.SubmitReadsBack | crates/protocol_sv1/src/domain_mapper.rs:111-176 | parsing the printed fields of any share gives the share back |
| DomainMapper.RollingReadsBack | crates/protocol_sv1/src/domain_mapper.rs:76-98 | the same for a version-rolling request |
| DomainMapper.SubmitReadsExactly | crates/protocol_sv1/src/domain_mapper.rs:111-176 | a submit is accepted exactly when every field is a number of its kind, and then carries those numbers |
| DomainMapper.RollingReadsExactly | crates/protocol_sv1/src/domain_mapper.rs:76-98 | an absent mask asks for every bit and an absent count for none; what is there must be a 32-bit number |
| VersionRolling.NegotiatedIsSafe | crates/protocol_sv1/src/session.rs:7-20 | the negotiated mask lies within 0x1fffe000 and the requested mask, is not zero, and its minimum bit count is at most its own number of bits and the requested minimum |
| VersionRolling.NegotiatedIsLargest | crates/protocol_sv1/src/session.rs:10-13 | bits pass the negotiated mask exactly when both sides allow them; refusing means only zero bits would |
| VersionRolling.NegotiatedExactly | crates/protocol_sv1/src/session.rs:7-20 | refused when the requested mask shares no bit with 0x1fffe000; otherwise the shared bits, and the smaller of the count asked for and the number of shared bits |
| VersionRolling.CountsOnes | crates/protocol_sv1/src/session.rs:15 | that number is the count of one bits: clearing the lowest one bit lowers it by one |
| Broadcast.ReceiveReadsHistory | crates/azcoin-pool/src/main.rs:75 | what is received is the message of the full history at the cursor, and a receiver loses messages exactly when it is more than 16 behind |
| Broadcast.ReceiveOwesLess | crates/protocol_sv1/src/server.rs:207-217 | each receive, a lag report included, brings the receiver one nearer to the newest message, which the last one delivers |
| Poller.JobPoller.Tick | crates/azcoin-pool/src/main.rs:85-107 | one poll in place: the new last id and height, and the broadcast |
| Poller.PollerDestutters | crates/azcoin-pool/src/main.rs:82-107 | over any sequence of polls, failed ones included, the broadcasts are the successful polls with adjacent repeats of id and height removed |
| Poller.NoChangeMissed | crates/azcoin-pool/src/main.rs:96-106 | the newest broadcast has the key of the newest successful poll |
| Poller.BroadcastsAlternate | crates/azcoin-pool/src/main.rs:96 | no broadcast has the key of the one before it |
| Poller.SameHeightNotBroadcast | crates/azcoin-pool/src/main.rs:91-96 | template jobs are broadcast exactly when the height changes |
| Poller.PolledExactly | crates/azcoin-pool/src/main.rs:96-106 | for jobs of any kind a poll broadcasts exactly when id or height differs from the last broadcast |
| Poller.FirstPoll | crates/azcoin-pool/src/main.rs:82-106 | the first poll broadcasts anything but a job without id and height |
| SubmitHandler.Sv1SessionHandler.OnSubmit | crates/azcoin-pool/src/sv1_handler.rs:138-149 | the result, the one record, and the submission when the result is a block |
| SubmitHandler.Sv1SessionHandler.MaybeSubmitBlockCandidate | crates/azcoin-pool/src/sv1_handler.rs:21-115 | a second lookup; nothing is submitted without an entry or when the job source offers another id or height; otherwise exactly the block that can be assembled |
| SubmitHandler.Sv1SessionHandler.OnNotifySent | crates/azcoin-pool/src/sv1_handler.rs:134-136 | registers the job |
| SubmitHandler.AssembledCommits | crates/azcoin-pool/src/sv1_handler.rs:50-93 | every assembled block commits to its own coinbase, whichever job the second read found |
| ShareProcessor.JobAwareShareProcessor.ProcessShare | crates/pool_core/src/services.rs:336-412 | on each exit exactly one attempt is recorded and it agrees with the result; the result is the processor's for the registry it read |
| ShareProcessor.CheckShape | crates/pool_core/src/services.rs:337-374 | the first failing shape check, if any |
| ShareProcessor.GatesAgree | crates/pool_core/src/services.rs:351-373 | the shape checks and the validator's version merge accept exactly the same version bits |
| ShareProcessor.ProcessedCases | crates/pool_core/src/services.rs:336-411 | when each result arises, as an equivalence; with the coin's validator a rejection comes only from the shape checks |
| ShareProcessor.JudgedExactly | crates/pool_core/src/services.rs:336-411 | the verdict on every share in the share's own terms: the checks, the lookup, the extranonce, then the header's hash against the two targets with the pool difficulty, or one when that is zero |
| ShareProcessor.AcceptedExactly | crates/coin_azcoin/src/share_validator.rs:41-63 | a share is accepted if and only if it passes the checks, its job is registered, its header can be rebuilt, and the hash is above the block target and at most the pool's |
| ShareProcessor.ShapeErrorExactly | crates/pool_core/src/services.rs:337-374 | which check fails first, and that none fails exactly when the length fits and the bits lie in the mask |
| ShareProcessor.UnvalidatedExactly | crates/pool_core/src/services.rs:376-411 | without a validator every share that passes the checks on a registered job is accepted |
| ShareProcessor.DefaultExtranonce | crates/pool_core/src/services.rs:387-402 | a share without an extranonce1 is judged with four zero bytes |
| ShareProcessor.BlockMeansSolved | crates/pool_core/src/services.rs:376-404 | a block result means the rebuilt header's hash is at most the registered job's target |
| JobRegistry.ActiveJobRegistry.Register | crates/pool_core/src/services.rs:37-53 | the new registry after clearing, the duplicate test and the eviction loop, which terminates; consistency is kept |
| JobRegistry.ActiveJobRegistry.GetJob | crates/pool_core/src/services.rs:62-65 | the entry under the id |
| JobRegistry.ActiveJobRegistry.Contains | crates/pool_core/src/services.rs:56-59 | whether there is one |
| JobRegistry.RegisteredConsistent | crates/pool_core/src/services.rs:37-53 | no id twice, queue and map hold the same ids, each key holds a job of that id, at most 64, and the id is registered afterwards |
| JobRegistry.RegistryRefinesFifo | crates/pool_core/src/services.rs:46-52 | over every run the registered ids are the last 64 insertions since the last clean job, in order |
| JobRegistry.CleanLeavesOnlyTheJob | crates/pool_core/src/services.rs:39-42 | a clean job leaves exactly itself |
| JobRegistry.InsertedJobStays | crates/pool_core/src/services.rs:43-52 | an inserted job stays, unchanged, through any run of non-clean registrations with fewer than 64 distinct other ids; template jobs are all clean, so this is about other job sources |
| JobRegistry.SixtyFourNewIdsEvict | crates/pool_core/src/services.rs:46-50 | and 64 new non-clean ids evict it |
| JobRegistry.EntriesComeFromRegistering | crates/pool_core/src/services.rs:39-52 | an entry changes only to a job registered in the run |
| ShareLog.RecentSharesBuffer.Record | crates/pool_core/src/share_buffer.rs:28-40 | appends the attempt and drops the oldest at 100 |
| ShareLog.BufferIsLastAttempts | crates/pool_core/src/share_buffer.rs:28-45 | over any run of records the buffer is the last 100 of the full history, in order |
| ShareValidator.ValidateShare | crates/coin_azcoin/src/share_validator.rs:32-140 | the loops over byte arrays decide on the rebuilt header's hash v as a little-endian number: block iff v is at most the job's target, else accepted iff v times the pool difficulty, or one when that is zero, is at most 0xffff * 256^26 |
| ShareValidator.HashReads | crates/coin_azcoin/src/share_validator.rs:110-111 | the reversed digest compared as big-endian is the digest as a little-endian number |
| ShareValidator.ClassificationExact | crates/coin_azcoin/src/share_validator.rs:45-63 | for exponents 3 to 32: block iff hash <= m * 256^(e-3), else accepted iff hash * d <= 0xffff * 256^26, else low difficulty |
| ShareValidator.LowerDifficultyAccepts | crates/coin_azcoin/src/share_validator.rs:46-56 | what is accepted at one difficulty is accepted at every lower one |
| ShareValidator.HeaderBinding | crates/coin_azcoin/src/share_validator.rs:91-203 | shares on one job with the same header agree on version, ntime, nonce and the joined extranonces, or an explicit collision is found in the coinbase or on the walk of the branch, of any length |
| ShareValidator.RebuiltVersion | crates/coin_azcoin/src/share_validator.rs:166-184 | the header's version has the job's bits outside the mask and the submitted bits inside |
| ShareValidator.HeaderFields | crates/coin_azcoin/src/share_validator.rs:187-203 | where each field lies in the 80 bytes |
| ShareValidator.BuildBlockHeader | crates/coin_azcoin/src/share_validator.rs:187-203 | the appends build that header |
| ShareValidator.ApplyMerkleBranch | crates/coin_azcoin/src/share_validator.rs:156-164 | the loop folds the branch from the left |
| Merkle.RootFoldsPath | crates/coin_azcoin/src/template_mapper.rs:123-140 | the root is the fold over the siblings on the coinbase's path, which is what a branch would have to list |
| Merkle.FoldIsMerkleRoot | crates/coin_azcoin/src/template_mapper.rs:123-140 | with at most one id the fold over all ids is the Merkle root |
| Merkle.FoldIsNotMerkleRoot | crates/coin_azcoin/src/template_mapper.rs:123-140 | with two ids or more, however many, it is the root only if two explicit inputs collide or the last id lies on an explicit hash cycle |
| Merkle.FoldIsRootExactly | crates/coin_azcoin/src/template_mapper.rs:123-140 | for every coinbase and every list of transactions, the fold over the ids that a hash gives them is their Merkle root under every hash function if and only if there is at most one besides the coinbase |
| Merkle.FoldMeetsRoot | crates/coin_azcoin/src/share_validator.rs:156-164 | for any branch and any ids, the fold over the one is the root over the other exactly when the last two hashed inputs are equal or collide |
| Target.NbitsToTarget | crates/coin_azcoin/src/share_validator.rs:214-239 | the 32 bytes as an integer, for every nBits |
| Target.CompactExpansionExact | crates/coin_azcoin/src/share_validator.rs:214-239 | the expansion equals m * 256^(e-3) exactly for exponents 3 to 32, a zero mantissa, or exponent 0 with a zero low mantissa byte |
| Target.CompactExpansionFails | crates/coin_azcoin/src/share_validator.rs:219-227 | an input on each side of that range for which it does not |
| Target.OutsideExactRange | crates/coin_azcoin/src/share_validator.rs:219-237 | what it computes there: a left shift within 32 bits below exponent 3, zero above 32 |
| Target.DivTargetByDifficulty | crates/coin_azcoin/src/share_validator.rs:247-263 | the quotient is floor(target / d), for every target and difficulty |
| Target.DivideDigit | crates/coin_azcoin/src/share_validator.rs:257-259 | each step keeps quotient and remainder exact, with the remainder below d |
| Target.DigitFits | crates/coin_azcoin/src/share_validator.rs:258 | no quotient digit is cut by the cast to a byte |
| Target.LeqBe | crates/coin_azcoin/src/share_validator.rs:266-276 | the byte comparison is the order of the integers |
| Target.ShareTargetExact | crates/coin_azcoin/src/share_validator.rs:113 | meeting the divided target is hash * d <= 0xffff * 256^26, with no rounding left |
| Target.QuotientAntitone | crates/coin_azcoin/src/share_validator.rs:245-263 | dividing any target by more gives no more |
| Target.ShareTargetAntitone | crates/coin_azcoin/src/share_validator.rs:245-263 | so a share good enough for a difficulty is good enough for every lower one |
| CoinbaseSplit.BuildCoinbaseParts | crates/coin_azcoin/src/template_mapper.rs:146-180 | building, parsing back, printing without witness and cutting give the two parts |
| CoinbaseSplit.FirstMatchIntended | crates/coin_azcoin/src/template_mapper.rs:169-179 | the first match is the intended offset if and only if the height is not 0xefbeadde0cb0cefa and the flags push holds no placeholder |
| CoinbaseSplit.ShortFlagsSplit | crates/coin_azcoin/src/template_mapper.rs:152-153 | for at most 241 bytes of flags that condition is about the flags alone |
| CoinbaseSplit.PartsReassemble | crates/coin_azcoin/src/template_mapper.rs:146-180 | for every 8 bytes the parts around them are the coinbase with those bytes, if and only if the inputs split cleanly |
| CoinbaseSplit.FilledPartsParse | crates/coin_azcoin/src/template_mapper.rs:142-180 | and they parse to a coinbase that pays the value to the payout script, with the commitment output if there is one, and a script of the height and the flags with those bytes |
| CoinbaseSplit.NoMatchInHeight | crates/coin_azcoin/src/coinbase_builder.rs:84-101 | no match starts in the height's script number or straddles it, except for that one height |
| CoinbaseSplit.PartsLookLegacy | crates/coin_azcoin/src/template_mapper.rs:163-179 | the first part of every job ends after the input count, which is not the witness marker |
| Coinbase.EncodeScriptNum | crates/coin_azcoin/src/coinbase_builder.rs:84-101 | the loop computes the script number |
| Coinbase.ScriptNumRoundTrip | crates/coin_azcoin/src/coinbase_builder.rs:84-101 | decoding gives the value back and the last byte's high bit is clear |
| Coinbase.ScriptNumMinimal | crates/coin_azcoin/src/coinbase_builder.rs:84-101 | no shorter signed little-endian encoding of the value exists |
| Coinbase.ScriptNumFits | crates/coin_azcoin/src/coinbase_builder.rs:84-101 | at most 9 bytes for 64 bits |
| Coinbase.PushData | crates/coin_azcoin/src/coinbase_builder.rs:103-121 | appends one push in one of four forms |
| Coinbase.PushDelimits | crates/coin_azcoin/src/coinbase_builder.rs:103-121 | a push can be read back from whatever follows exactly when its data is shorter than 2^32 bytes |
| Coinbase.BuildCoinbaseScriptSig | crates/coin_azcoin/src/coinbase_builder.rs:71-82 | the script is the pushes of height and flags |
| Coinbase.ScriptSigRoundTrip | crates/coin_azcoin/src/coinbase_builder.rs:71-82 | the whole script parses back to the height and the flags |
| Coinbase.BuildCoinbaseTransaction | crates/coin_azcoin/src/coinbase_builder.rs:18-57 | what is built parses to one input without previous output, the height and flags in its script, the value paid to the payout script, a zero-valued commitment output and a 32-byte zero witness exactly for a commitment; an empty payout script is the configuration error |
| CoinbaseSplit.CoinbaseBytes | crates/coin_azcoin/src/coinbase_builder.rs:44-69 | the coinbase in hashed form, byte for byte |
| Coinbase.SerializeNoWitness | crates/coin_azcoin/src/coinbase_builder.rs:62-69 | the hashed form, field by field |
| Transactions.TxLawful | crates/coin_azcoin/src/coinbase_builder.rs:56-69 | printing and parsing transactions (BIP 144, sections "Serialization" and "Hashes") undo each other in both directions, with minimal CompactSize |
| Transactions.BlockLawful | crates/coin_azcoin/src/raw_block_builder.rs:38-45 | the same for a header with its counted transactions |
| Transactions.LegacyBytesAreHashed | crates/coin_azcoin/src/coinbase_builder.rs:59-69 | bytes that parse and do not show the marker are exactly the hashed form of what they parse to |
| Codecs.CompactSizeLawful | crates/coin_azcoin/src/raw_block_builder.rs:39-41 | the four widths of CompactSize are read back, and only minimal ones are read |
| Codecs.CompactSizeForm | crates/coin_azcoin/src/raw_block_builder.rs:39-41 | one byte below 0xfd, else a marker and the count in two, four or eight bytes, least significant first |
| TemplateMapper.JobFields | crates/coin_azcoin/src/template_mapper.rs:17-52 | every job carries its template's fields: id the height in decimal, previous hash reversed, nBits most significant byte first, time cut to 32 bits, version, clean; and for the block the height, value, the trimmed flags and commitment when they are not blank, and each transaction's bytes |
| TemplateMapper.InputsAreTemplates | crates/coin_azcoin/src/template_mapper.rs:155-161 | the coinbase is asked for with the template's height, value, flags and commitment and the payout script |
| TemplateMapper.EntryExactly | crates/coin_azcoin/src/template_mapper.rs:125-138 | a transaction's branch entry is its txid, or its hash when it has no txid, if that is 32 bytes, backwards |
| TemplateMapper.BranchConcat | crates/coin_azcoin/src/template_mapper.rs:123-140 | the branch lists the entries of all transactions in order, whichever are missing |
| TemplateMapper.BranchOfOne | crates/coin_azcoin/src/template_mapper.rs:123-140 | one transaction gives its own entry, or none |
| TemplateMapper.JobMadeIfDecodable | crates/coin_azcoin/src/template_mapper.rs:17-52 | a template makes a job if and only if its previous hash is 32 bytes of hexadecimal, its bits 4, every other field that is not blank and every transaction decodes, and the payout script is not empty: a missing placeholder never happens |
| TemplateMapper.FirstFieldError | crates/coin_azcoin/src/template_mapper.rs:22-33 | otherwise the error names the first field that fails, in the source's order |
| TemplateMapper.JobIdIsHeight | crates/coin_azcoin/src/template_mapper.rs:35 | template jobs share an id exactly when they share the height |
| TemplateMapper.BranchIsWhole | crates/coin_azcoin/src/template_mapper.rs:125-140 | the branch has an entry for every transaction exactly when every id decodes to 32 bytes; the others are dropped |
| TemplateMapper.BuildMerkleBranch | crates/coin_azcoin/src/template_mapper.rs:125-140 | the loop lists the usable ids in order |
| TemplateAdapter.DecodeHex | crates/sv2_scaffold/src/template_adapter.rs:105-131 | the looped decoder accepts and returns what the library decoder does on the trimmed text |
| TemplateAdapter.DecoderInvertsEncoder | crates/sv2_scaffold/src/template_adapter.rs:105-140 | it inverts encoding for every byte string |
| TemplateAdapter.ParsersAgree | crates/sv2_scaffold/src/job_bridge.rs:48-57 | when both parsers accept a template they read the same previous hash, nBits, time, version and height |
| TemplateAdapter.AdapterExactly | crates/sv2_scaffold/src/template_adapter.rs:46-68 | what the second parser accepts, and each field it reads |
| TemplateAdapter.AcceptanceDiffersByWhitespace | crates/sv2_scaffold/src/template_adapter.rs:70-103 | they accept the same texts up to surrounding whitespace |
| CandidateSubmit.PrepareCandidate | crates/coin_azcoin/src/candidate_submit.rs:41-78 | the candidate up to the call of the submitter, or the error |
| CandidateSubmit.CandidateStops | crates/coin_azcoin/src/candidate_submit.rs:33-63 | when it stops before building the block, and with which error |
| CandidateSubmit.RestoreCoinbaseWitness | crates/coin_azcoin/src/candidate_submit.rs:33-39 | parse, set the first witness, print |
| CandidateSubmit.RestorationKeepsTxid | crates/coin_azcoin/src/candidate_submit.rs:31-39 | what is restored has the input bytes as its hashed form and exactly 32 zero bytes as its first witness |
| CandidateSubmit.RestorationSplices | crates/coin_azcoin/src/candidate_submit.rs:31-39 | for one input, restoring adds exactly the marker, the flag and that witness, so removing them gives the input back byte for byte |
| CandidateSubmit.CandidateCarriesCoinbase | crates/coin_azcoin/src/candidate_submit.rs:52-78 | every candidate's first transaction is the miner's coinbase, and the rest are the template's |
| CandidateSubmit.ReportKeepsReason | crates/coin_azcoin/src/candidate_submit.rs:87-108 | a rejection keeps the daemon's reason and only a yes counts as submitted |
| RawBlock.BuildRawBlock | crates/coin_azcoin/src/raw_block_builder.rs:8-48 | succeeds exactly for an 80-byte header, transactions that each parse whole, and a count below 2^64; then the bytes |
| RawBlock.ValidateTransactions | crates/coin_azcoin/src/raw_block_builder.rs:20-23 | the loop accepts exactly when all parse |
| RawBlock.RawBlockInverts | crates/coin_azcoin/src/raw_block_builder.rs:8-48 | parsing a built block gives back the header and the transactions in order with nothing left over |
| Notify.SwapWordsInvolutive | crates/protocol_sv1/src/notify.rs:33-39 | the word swap undoes itself |
| Bytes.ReverseInvolutive | crates/protocol_sv1/src/notify.rs:41-44 | and so does the reversal |
| Notify.NotifyReads | crates/protocol_sv1/src/notify.rs:8-44 | field by field, what a miner decodes is the job: id, previous hash with each word reversed, both coinbase parts, branch entries backwards, version, nBits, time and clean flag |
| Notify.NotifyInjective | crates/protocol_sv1/src/notify.rs:8-31 | equal notifications come from equal jobs, assembly data aside |
| Hex.HexRoundTrip | crates/protocol_sv1/src/domain_mapper.rs:148-149 | decoding an encoding gives the bytes back |
| Hex.HexU32RoundTrip | crates/protocol_sv1/src/domain_mapper.rs:100-108 | printing a 32-bit field with eight digits and parsing it gives it back |
| Hex.HexEncodeAt | crates/protocol_sv1/src/notify.rs:38 | every byte is printed as two lower-case digits, the high one first |
| Hex.NibbleExactly | crates/sv2_scaffold/src/template_adapter.rs:133-140 | a character is read as a digit exactly when it is that digit in either case |
| Hex.HexU32ReadsExactly | crates/protocol_sv1/src/domain_mapper.rs:100-108 | eight characters are accepted when they are eight digits, or a plus sign and seven |
| Hex.DecimalReads | crates/coin_azcoin/src/template_mapper.rs:35 | decimal text has the number's value and no leading zero |
| Hex.TrimExactly | crates/coin_azcoin/src/template_mapper.rs:87 | trimming cuts whitespace off both ends, and all of it |

## Left out

- Target.NbitsToTarget: takes the unsigned subtraction of exponents above 32 to wrap, as a release build does; a debug build panics there.
- RawBlock.BuildRawBlock: the error texts are abstracted, and the size limits the `bitcoin` crate puts on vectors while parsing are not modelled.
- SameWork.SolvesCarriesOver: is about branches of fewer than 2^64 entries, which is more than any process holds.
- EndToEnd.FoundBlockIsSubmitted: speaks of the call of the submitter, not of the daemon's answer, which is an unconstrained input.
- CrossJobs.CreditsNeverOverlapAcrossJobs: is about templates that split cleanly; a cut at an earlier match of the placeholder may cut off what tells two coinbases apart. With one unsubscribed session the extranonce 0xffffffff and payout scripts of one or two bytes are excluded: there a coinbase without extranonces could be one with them, or as long as an inner node of the tree.
- PoolRuns.DrainReachesNewest: is about a period without polls in which the session itself only receives; the other sessions are unrestricted. A session that is owed nothing keeps the id it has, which is not the newest if it was not authorized when the newest job came by.
- Session.Sv1Session.HandleRequest: a failed write is taken to write nothing; the bytes of a partly written line are not modelled. Replies are values, not JSON text; the sentence in a bad field's reply is reduced to the field's name, and the configure reply's result map to the negotiated mask and count. Blank lines do nothing and have no step.
- DomainMapper.SubmitReadsExactly: speaks of text fields; the JSON arrays that hold them are not modelled.
- ShareProcessor.JobAwareShareProcessor.ProcessShare: reject reasons are values instead of formatted text, and the optional share sink, whose failures the source ignores, is left out.
- SHA-256 internals: the hash is a parameter.
- The sizes of a process: flags of 2^32 - 8 bytes or more, and other fields of 2^63 bytes or more, are excluded where a theorem needs it.
- TCP, JSON-RPC framing and tokio: each line and each broadcast receive is one step; cancellation of a half-read line inside `select!` is not part of the model.
- The inside of the broadcast channel: it is a ring of 16 with one cursor per receiver; a send without receivers is stored all the same, which no receiver can notice because a new one starts at the end.
- Hexadecimal text is measured in characters where the source measures bytes; the two differ only for text that is rejected for its digits anyway.
- HTTP and RPC clients, API routes, the storage and payout stubs: input and output, or placeholders. The job source and the submitter are unconstrained inputs of the steps.
- Coinbase parts taken from the node API (`crates/coin_azcoin/src/api_template_mapper.rs`): placeholders, not a transaction.
- Configuration, environment overrides, logging, statistics and the worker registry: no step of a share or a job depends on them.
- `aggregation.rs`, `pool_flow.rs` and `share_flow_check.rs`: counters and glue over the members above.
- Miners' reading of non-empty branches: the wire reverses each entry, and the repository does not show how a miner decodes it; only that nothing is lost on the wire is proved.
- Minimal push opcodes for small heights: the code always emits a length and the bytes, so only the script number is claimed minimal.
- Duplicate shares: the pool does not detect them, so nothing is claimed.
