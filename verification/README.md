# A verified model of the shared publisher

The shared publisher coordinates cross-chain transactions by two-phase commit, announces periods, and
settles superblocks on L1.  This project models its state machines in Dafny and proves what holds over all of
their runs.  `dafny verify dfyconfig.toml` checks everything.

| files | what they model |
|---|---|
| `Spec`, `Encoding`, `InstanceIds` | domain types, participants of a request, the bytes hashed into an instance identifier |
| `CoordinatorModel`, `Coordinator` | `CoordinatorState`: what each lock-held section does, as functions on a value and as a mutable class that keeps its invariant and is proved equal to them |
| `CoordinatorRuns`, `AtomicCommit`, `QueueDiscipline`, `CoordinatorTheorems`, `Timeouts` | runs of the coordinator as interleavings of lock-held sections, their invariants, and the results |
| `GreedyDrain` | an uninterrupted `drain_queue` as one greedy pass |
| `ProofCollection`, `L1Payload` | registration, proof collection, the superblock counter, and the L1 payload |
| `PublisherModel`, `Publisher`, `PublisherRuns`, `ProverCalls` | the SBCP publisher; what a prover call that returns late publishes and deletes |
| `SequencerModel`, `Sequencer`, `SequencerRuns` | the SBCP sequencer |
| `Settlement` | publisher and sequencers together, over a network that delays, reorders and repeats |
| `Refinement` | the coordinator as a run of the SBCP publisher |

## How to read it

A run is a sequence of labels.  A label is one lock-held section of one task, with the inputs that are not in
the state: the clock, the hash map's iteration order, the outcome of a prover or L1 call.  `Run(labels)` is the
state after all of them, so a lemma about `Run(labels)` for arbitrary `labels` speaks of every interleaving and
every reachable state.  Orders are commit orders (the order in which sections hold the lock); broadcasts happen
after the lock is released and their order is not claimed.

Assumptions, each visible as a hypothesis:

- SHA-256 is a function parameter.  `HashSafe` says that the counters used fit in 64 bits and that the hash does
  not collide on the preimages of the starts of the run at hand.  Nothing is assumed about other inputs.
- `OneHash` says that L1 gives everyone the same hash for a superblock.
- `HonestL1` says that L1 settles only superblocks that were published to it.
- `Orderly`, `Steady`, `Disciplined` and `SingleFlight` are conditions on the environment, named where they are used.

Counters are unbounded; where a counter is hashed its low 64 bits are.  Subtraction wraps, as in the release
profile, which has no overflow checks (`WrapSub`).

## Findings

- The bytes hashed into an identifier leave out where the empty payloads of a request are, because an empty payload
  is counted but writes no length, unlike the format stated above the function.  Requests that share their bytes
  are equal exactly when their empty payloads sit in the same places (`SharedBytesExactly`).  Different requests
  over two chains and more do share their bytes: an empty payload may move inside its entry (`EmptyPayloadMoves`),
  and two entries may read as one, with chain 8 no longer a participant and no payload empty (`EntriesMerge`).
  Instances still differ, since the bytes always fix period and sequence number (`PreimageFixesPosition`).
- The L1 payload is independent of the map's iteration order exactly when proofs with equal config hashes have
  equal boot infos and commuting proof bytes (`PayloadCanonical`).  Proofs received over QUIC carry default
  outputs and therefore all tie (`DefaultOutputsTie`).
- A request that arrives between a release and the drain that follows can overtake a waiting one with the same
  chains (`OvertakingHappens`).  A waiting entry can be overtaken so exactly while it overlaps no active chain
  (`OvertakingExactly`).
- `Publisher::new` admits targets for which the expected-period subtraction wraps (`ConstructionAllowsWrap`); it
  never does exactly when `target <= finalized + 1 + period` at construction (`SubtractionNeverWraps`).
- With two L1 submissions in flight the finalized number can move backwards (`LateSuccessGoesBack`).  Over a run the
  numbers that succeed are consecutive exactly when none succeeds twice, which L1 can enforce
  (`SuccessesConsecutiveExactly`).
- After a rollback the publisher numbers instances from 1 again within the same period and can reissue an
  identifier (`RollbackReusesIdentifier`); over a run no pair of period and number is used twice exactly when no
  rollback lies between two starts of one period (`PairsFreshExactly`).  A sequencer keeps refusing the numbers it
  has seen (`RollbackKeepsRefusing`).
- Proofs for announcements from before a rollback are never stored after it (`StaleProofsNeverStored`), but nothing is
  checked when a prover call returns.  A call that was running when the rollback happened still publishes its
  superblock (`LateAnswerPublishes`) and deletes proofs collected since (`LateAnswerDeletes`).  When either
  happens is stated exactly in `AnswerIsCurrentExactly` and `AnswerDeletesExactly`.
- Registering a chain that another client holds leaves that client mapped to it; the two maps of the registry stay
  inverse exactly when nobody else holds the chain (`RegisterKeepsBijection`).  A proof over the former holder's
  connection can then complete a batch for a chain that is not registered (`FormerHolderCompletes`); without such
  takeovers it cannot (`ConnectionsAreDisciplined`).  Over HTTP the sender names the chain, and nothing is checked.
- The coordinator never updates the hash of the last finalized superblock.  Its rollbacks pair the current number with
  the hash read at the start; hashes of different superblocks differing, sequencers accept them exactly as long as no
  submission has succeeded
  (`RollbackHashIsFirst`, `CoordinatorRollbackAcceptedExactly`).  The SBCP publisher keeps number and hash together
  (`RunKeepsReported`, `RollbackAcceptedExactly`).
- A settlement fixes its label in one locked section and reads its header in a second one.  A rollback accepted in
  between can leave the proof without its header (`RollbackBeforeRead`), and when it does is stated exactly in
  `ReadAsTriggeredExactly`.
- The coordinator announces the superblock after the last finalized one with every period, the SBCP publisher one more
  than last time.  The announced pairs agree exactly when one superblock is finalized per period
  (`AnnouncementsAgreeExactly`); the refinement of periods and instances does not depend on it.

## Model

| member | source | states |
|---|---|---|
| `Spec.ChainsFromRequest` | crates/spec/src/instance.rs:54-65 | the loop (also `extract_chains`) computes `ChainsOf`: no repetition, exactly the chains named |
| `Spec.DedupKeepsFirstOccurrences` | crates/coordinator/src/coordinator.rs:756-766 | participants are listed in the order of their first occurrence in the request |
| `Spec.ParticipantsInOrder` | crates/spec/src/instance.rs:54-65 | participants come in the order of the first entries that name them |
| `Spec.ParticipantsAreNamed` | crates/spec/src/instance.rs:54-65 | a chain takes part if and only if some entry names it |
| `Encoding.HexInjective` | crates/coordinator/src/coordinator.rs:451 | different identifier bytes, of any lengths, have different keys |
| `Encoding.HexSpells` | crates/coordinator/src/coordinator.rs:451 | each byte is spelt by its high and its low lower-case digit |
| `Encoding.BeByteAt` | crates/spec-sbcp/src/id.rs:14-24 | the i-th byte of a big-endian number is its digit of that weight |
| `InstanceIds.GenerateInstanceId` | crates/spec-sbcp/src/id.rs:7-31 | the nested loops hash exactly `Preimage(period, sequence, request)` |
| `InstanceIds.PreimageParts` | crates/spec-sbcp/src/id.rs:14-16 | eight bytes of period, eight of sequence number, then the entries |
| `InstanceIds.EntryLayout` | crates/spec-sbcp/src/id.rs:17-20 | an entry is eight bytes of chain, eight of payload count, then the payloads |
| `InstanceIds.PreimageRoundTrip` | crates/spec-sbcp/src/id.rs:14-27 | reading the bytes by the documented format gives back period, sequence number and request if and only if no payload is empty |
| `InstanceIds.DecodedIsPreimage` | crates/spec-sbcp/src/id.rs:14-27 | whatever decodes is the preimage of what it decodes to |
| `InstanceIds.PreimageInjective` | crates/spec-sbcp/src/id.rs:14-27 | among requests without empty payloads equal bytes mean equal period, sequence number and request |
| `InstanceIds.PreimageFixesPosition` | crates/spec-sbcp/src/id.rs:14-15 | the bytes fix period and sequence number for every request |
| `InstanceIds.SharedBytesExactly` | crates/spec-sbcp/src/id.rs:14-27 | requests with the same bytes are equal if and only if their empty payloads sit in the same places |
| `InstanceIds.EmptyPayloadMoves` | crates/spec-sbcp/src/id.rs:21-26 | moving an empty payload inside an entry keeps the bytes, whatever further entries there are |
| `InstanceIds.EntriesMerge` | crates/spec-sbcp/src/id.rs:17-26 | two entries share their bytes with one, whatever further entries there are, with the same participants but for chain 8 |
| `Coordinator.CoordinatorState.constructor` | crates/coordinator/src/coordinator.rs:63-78 | the initial state |
| `Coordinator.CoordinatorState.ReserveChains` | crates/coordinator/src/coordinator.rs:92-96 | the new index: every listed chain is held by the transaction, all others as before |
| `Coordinator.CoordinatorState.ReleaseChains` | crates/coordinator/src/coordinator.rs:98-106 | the new index: exactly the transaction's chains still reserved for it are free |
| `Coordinator.CoordinatorState.PrepareXt` | crates/coordinator/src/coordinator.rs:116-160 | the whole new state and the instance broadcast |
| `Coordinator.CoordinatorState.RecordVote` | crates/coordinator/src/coordinator.rs:162-211 | the whole new state; a decision exactly when the vote counts and decides |
| `Coordinator.CoordinatorState.HandleVote` | crates/coordinator/src/coordinator.rs:162-211 | keeps the invariant; decides if and only if it is a participant's first vote and a "no" or the last one missing; to commit if and only if all participants have now said "yes"; the decision carries the bytes the instance was started with, and the instance is gone |
| `Coordinator.CoordinatorState.ReapTimedOut` | crates/coordinator/src/coordinator.rs:214-246 | keeps the invariant; drops a transaction if and only if it was started at least the timeout ago, each once, each with an abort carrying its own bytes |
| `Coordinator.CoordinatorState.TakeNextReady` | crates/coordinator/src/coordinator.rs:260-266 | removes and returns the first entry that overlaps nothing, if there is one |
| `Coordinator.CoordinatorState.HandleXtRequest` | crates/coordinator/src/coordinator.rs:396-431 | rejected, refused, queued or started, exactly under which condition, with the whole new state; keeps the invariant unless the new key collides |
| `Coordinator.CoordinatorState.DrainQueue` | crates/coordinator/src/coordinator.rs:522-542 | terminates; broadcasts the instances of the entries of the greedy pass, in order and numbered on; leaves its leftovers, all blocked; keeps the invariant unless a new key collides |
| `Coordinator.CoordinatorState.AdvancePeriod` | crates/coordinator/src/coordinator.rs:367-375 | keeps the invariant; announces last finalized + 1; whatever starts next is number 1 of a period above every earlier one |
| `CoordinatorModel.VoteIgnoresPeriod` | crates/coordinator/src/coordinator.rs:162-211 | a period change and a vote commute, outcome included: instances of an old period run on |
| `CoordinatorModel.ReapIgnoresPeriod` | crates/coordinator/src/coordinator.rs:214-246 | so do a period change and a reaping |
| `Coordinator.CoordinatorState.RegisterChain` | crates/coordinator/src/coordinator.rs:80-86 | keeps the invariant; afterwards the client holds this chain and no other; the two maps stay inverse if and only if nobody else held it |
| `Coordinator.CoordinatorState.ReceiveProof` | crates/coordinator/src/coordinator.rs:624-661 | keeps the invariant; a batch leaves if and only if as many chains sent proofs as are registered, with all of them and last finalized + 1; else the clock runs from the first pending proof |
| `Coordinator.CoordinatorState.ReapExpiredProofs` | crates/coordinator/src/coordinator.rs:249-258 | keeps the invariant; expires if and only if the clock has been running for the window, which needs a pending proof; exactly then the collection changes |
| `Coordinator.CoordinatorState.RollBack` | crates/coordinator/src/coordinator.rs:575-584 | the second section of an expiry changes nothing, and names the last finalized number with the hash read at the start |
| `Coordinator.CoordinatorState.InitFromL1` | crates/coordinator/src/coordinator.rs:342-365 | keeps the invariant; takes over number and hash read from L1, or leaves everything |
| `Coordinator.CoordinatorState.SubmissionSucceeded` | crates/coordinator/src/coordinator.rs:678-681 | keeps the invariant; the finalized number moves by one if and only if the submission carried the next number |
| `CoordinatorModel.ActiveDisjoint` | crates/coordinator/src/coordinator.rs:88-106 | active transactions share no chain |
| `CoordinatorModel.OverlapMeansShared` | crates/coordinator/src/coordinator.rs:88-90 | the index test finds an overlap exactly when some active transaction shares a chain |
| `CoordinatorModel.FullVote` | crates/coordinator/src/coordinator.rs:108-112 | as many votes as participants if and only if the voters are the participants |
| `CoordinatorModel.OutcomeMeaning` | crates/coordinator/src/coordinator.rs:181-189 | a vote decides exactly when it is a "no" or the last one; it commits exactly when all participants said "yes" |
| `CoordinatorModel.PrepareKeepsInv` | crates/coordinator/src/coordinator.rs:116-137 | starting keeps the index the inverse of the table |
| `CoordinatorModel.RecordVoteKeepsInv` | crates/coordinator/src/coordinator.rs:162-211 | voting keeps it, and leaves active instances undecided with "yes" votes only |
| `CoordinatorModel.DropKeepsInv` | crates/coordinator/src/coordinator.rs:231-232 | timing out keeps it |
| `CoordinatorModel.FirstReady` | crates/coordinator/src/coordinator.rs:260-264 | every earlier entry overlaps an active chain and this one does not |
| `CoordinatorRuns.StepIsSection` | crates/coordinator/src/coordinator.rs:396-564 | on the shared state each step of a run is the locked section it stands for |
| `CoordinatorTheorems.IndexAgreesWithTable` | crates/coordinator/src/coordinator.rs:88-137 | after every run `active_chains[c] = x` exactly when `x` is active on `c`; active transactions are pairwise disjoint |
| `CoordinatorTheorems.AtomicCommitSafety` | crates/coordinator/src/coordinator.rs:162-246 | after every run: no identifier decided twice, only participants' votes recorded and one each, every decision carries a start's bytes, commit if and only if the recorded votes are a "yes" of each participant and nothing else, abort only on a "no" or a timeout with a vote missing |
| `CoordinatorTheorems.ActiveUntilDecided` | crates/coordinator/src/coordinator.rs:197-198 | a started instance is active exactly until it is decided, and an active one still misses a vote |
| `CoordinatorTheorems.RequestsConserved` | crates/coordinator/src/coordinator.rs:396-431 | every request over two chains is at each moment exactly one of rejected, queued, active, decided; the counts add up; the queue never exceeds 100 |
| `CoordinatorTheorems.NoLostWakeUp` | crates/coordinator/src/coordinator.rs:454-480 | if no task is draining, every queued entry shares a chain with an active transaction |
| `CoordinatorTheorems.DrainTerminates` | crates/coordinator/src/coordinator.rs:522-530 | each drain step, however interleaved, shortens the queue or ends the task |
| `CoordinatorTheorems.TimeoutResumesDrain` | crates/coordinator/src/coordinator.rs:544-563 | with entries waiting and nobody draining, reaping after the timeout empties the table and starts a drain |
| `CoordinatorTheorems.TimeoutShortensQueue` | crates/coordinator/src/coordinator.rs:522-563 | and that drain, without interference, ends with strictly fewer entries waiting |
| `Timeouts.ReapsExactlyLongAgo` | crates/coordinator/src/coordinator.rs:214-246 | after every run a reaping aborts a start if and only if it is active and was made at least the timeout earlier |
| `Timeouts.NoEarlyTimeout` | crates/coordinator/src/coordinator.rs:219-246 | in every run each timed-out decision was taken by a reaping at least its timeout after the start |
| `Timeouts.StartCarriesClock` | crates/coordinator/src/coordinator.rs:128-137 | a start carries the clock of the step that made it |
| `CoordinatorTheorems.WaitingOrder` | crates/coordinator/src/coordinator.rs:260-266 | after every run no waiting request has been overtaken by a later waiting one that needs all of its chains |
| `CoordinatorTheorems.OvertakingExactly` | crates/coordinator/src/coordinator.rs:412-431 | after every run some next step overtakes a waiting request it covers if and only if the waiting one overlaps no active chain; the step is a new arrival during a pending drain |
| `CoordinatorTheorems.OvertakingHappens` | crates/coordinator/src/coordinator.rs:412-431 | a run in which it does |
| `CoordinatorTheorems.IdentifiersFresh` | crates/coordinator/src/coordinator.rs:122-126 | pairs (period, sequence) increase strictly, gap-free from 1 in each period, so any two starts hash different bytes |
| `CoordinatorTheorems.LoneDrainIsGreedy` | crates/coordinator/src/coordinator.rs:522-542 | a single uninterrupted drainer ends in the state of the greedy pass |
| `GreedyDrain.DrainIsGreedy` | crates/coordinator/src/coordinator.rs:522-542 | searching from the head after every start equals one left-to-right pass, in starts, order and leftovers |
| `GreedyDrain.GreedyPicks` | crates/coordinator/src/coordinator.rs:260-266 | the pass starts exactly the entries that avoid the busy chains and all earlier started entries; starts are disjoint, leftovers blocked |
| `GreedyDrain.DrainLeavesBlocked` | crates/coordinator/src/coordinator.rs:522-542 | afterwards nothing queued is ready and a second drain does nothing |
| `Refinement.CoordinatorRefinesPublisher` | crates/spec-sbcp/src/publisher.rs:274-326 | replaying a coordinator run's log on the SBCP publisher succeeds call for call with identical instances, and ends with the same period, sequence number and busy chains |
| `Refinement.LogIsComplete` | crates/coordinator/src/coordinator.rs:522-564 | that log lists every start, decision and period of the run, once each and in order |
| `Refinement.AnnouncementsAgreeExactly` | crates/spec-sbcp/src/publisher.rs:129-156 | coordinator and publisher announce the same pairs if and only if one submission succeeds per period |
| `Refinement.CoordinatorRollbackAcceptedExactly` | crates/coordinator/src/coordinator.rs:575-593 | a sequencer that settled what L1 settled accepts the coordinator's rollback if and only if it names its settled superblock and no submission had succeeded |
| `ProofCollection.LedgerConsistent` | crates/coordinator/src/coordinator.rs:624-681 | after every run: proofs pending exactly while the clock runs, next = last finalized + 1, each registered chain's client names it |
| `ProofCollection.RegisterKeepsBijection` | crates/coordinator/src/coordinator.rs:80-86 | registering keeps chains and clients inverse if and only if no other client holds the chain; else the former holder stays mapped to it |
| `ProofCollection.RegistryBijective` | crates/coordinator/src/coordinator.rs:80-86 | so in every run without such a takeover they are inverse at every moment |
| `ProofCollection.ResetIsIdle` | crates/coordinator/src/coordinator.rs:575-578 | the rollback section never moves the counter |
| `ProofCollection.BatchIsLatest` | crates/coordinator/src/coordinator.rs:640-657 | a batch is the latest proof of each chain since the last batch or expiry, and carries last finalized + 1 |
| `ProofCollection.LatestMeans` | crates/coordinator/src/coordinator.rs:55-58 | a chain is covered exactly if it sent a proof, and by the one after which it sent no other |
| `ProofCollection.PendingAreLatest` | crates/coordinator/src/coordinator.rs:629-646 | after every run the pending proofs are the latest since the last batch or expiry |
| `ProofCollection.ExpiresExactly` | crates/coordinator/src/coordinator.rs:249-258 | after every run a reaping of proofs expires if and only if proofs have arrived and the window is over since the first of them |
| `ProofCollection.BatchCoversRegistered` | crates/coordinator/src/coordinator.rs:647-657 | a complete batch covers exactly the registered chains if and only if each chain in it is registered |
| `ProofCollection.DisciplinedBatches` | crates/coordinator/src/coordinator.rs:624-661 | so it does in every run with fixed registration during collection and registered submitters |
| `ProofCollection.ConnectionsAreDisciplined` | crates/coordinator/src/handlers.rs:94-115 | with proofs over registered connections, fixed registration and no takeover a run is of that kind |
| `ProofCollection.FormerHolderCompletes` | crates/coordinator/src/handlers.rs:101-115 | after a takeover it is not: a batch leaves for a chain that is not registered |
| `ProofCollection.FinalizeByOne` | crates/coordinator/src/coordinator.rs:676-681 | a success moves the finalized number by one if and only if it carries the next number |
| `ProofCollection.OneSubmissionAtATime` | crates/coordinator/src/coordinator.rs:676-681 | with one submission in flight every success moves it by exactly one |
| `ProofCollection.LateSuccessGoesBack` | crates/coordinator/src/coordinator.rs:676-681 | with two in flight it can go back |
| `ProofCollection.SuccessesConsecutiveExactly` | crates/coordinator/src/coordinator.rs:676-681 | over every run the successful submissions carry consecutive numbers from the initial one on if and only if no number succeeds twice |
| `ProofCollection.LockstepExactly` | crates/coordinator/src/coordinator.rs:367-375 | over every such run period and superblock are announced in lockstep if and only if one submission succeeds per period |
| `ProofCollection.RollbackHashIsFirst` | crates/coordinator/src/coordinator.rs:575-584 | in every run a rollback carries the hash the coordinator started with, and names its superblock if and only if no submission has succeeded before |
| `ProofCollection.StartsFromL1` | crates/coordinator/src/coordinator.rs:342-365 | a run starts from the pair read from L1, or from nothing |
| `L1Payload.SortByConfigHash` | crates/coordinator/src/l1_submit.rs:113-114 | sorting in place orders by config hash and keeps the order of proofs with equal hashes |
| `L1Payload.StableSortUnique` | crates/coordinator/src/l1_submit.rs:114 | ordered with equal hashes in their old order determines the result, so it is that of every stable sort |
| `L1Payload.SortedProperties` | crates/coordinator/src/l1_submit.rs:114 | the result is an ordered permutation |
| `L1Payload.Assemble` | crates/coordinator/src/l1_submit.rs:111-153 | for one listing of the batch by config hash each boot info holds the five outputs of its proof and cutting the bytes at the running lengths gives back the proofs; the L1 hash is the largest head, or zero |
| `L1Payload.PayloadCanonical` | crates/coordinator/src/l1_submit.rs:111-140 | they are the same for every iteration order if and only if proofs with equal hashes have equal boot infos and commuting bytes |
| `L1Payload.DistinctHashesSuffice` | crates/coordinator/src/l1_submit.rs:111-114 | so distinct hashes suffice |
| `L1Payload.DefaultOutputsTie` | crates/coordinator/src/handlers.rs:101-116 | proofs with the same outputs need commuting bytes |
| `L1Payload.OnePayload` | crates/coordinator/src/l1_submit.rs:111-153 | when ties agree, any two assemblies give the same payload, L1 hash included |
| `Publisher.PublisherObject.StartPeriod` | crates/spec-sbcp/src/publisher.rs:129-160 | keeps the invariant; succeeds if and only if the window allows; the period expected for any superblock stays, and a proof acceptable before stays acceptable; nothing is held for the superblock just closed |
| `Publisher.PublisherObject.StoredProofs` | crates/spec-sbcp/src/publisher.rs:384-388 | an entry for a superblock exists if and only if some chain's proof is held |
| `Publisher.PublisherObject.StartInstance` | crates/spec-sbcp/src/publisher.rs:274-307 | keeps the invariant; succeeds if and only if there are two entries and no participant is active; exactly the participants become active |
| `Publisher.PublisherObject.DecideInstance` | crates/spec-sbcp/src/publisher.rs:310-326 | keeps the invariant; succeeds if and only if all participants are active, and frees exactly those |
| `Publisher.PublisherObject.AdvanceSettledState` | crates/spec-sbcp/src/publisher.rs:329-348 | succeeds if and only if the number is newer, and then takes over number and hash together |
| `Publisher.PublisherObject.Rollback` | crates/spec-sbcp/src/publisher.rs:356-367 | keeps the invariant; until the next period no proof passes, and every request of two entries can start, as number 1 of the same period |
| `PublisherRuns.ProofVerdict` | crates/spec-sbcp/src/publisher.rs:172-246 | which verdict is given exactly when; stored exactly when the label passes and the sender is new; prover called exactly when that completes the set, with all of it |
| `PublisherRuns.DecideUndoesStart` | crates/spec-sbcp/src/publisher.rs:274-326 | deciding gives back exactly what starting took, and cannot be repeated |
| `PublisherRuns.SettlementContiguous` | crates/spec-sbcp/src/publisher.rs:248-259 | with an honest L1, under all interleavings with prover calls and rollbacks, a settlement is accepted exactly for finalized + 1, and finalized never exceeds target |
| `PublisherRuns.RunKeepsReported` | crates/spec-sbcp/src/publisher.rs:246-348 | in every run the finalized pair is the initial one or a report no other is newer than; every rollback announced and every prover call pairs a number with the hash reported for it |
| `PublisherRuns.SubtractionNeverWraps` | crates/spec-sbcp/src/publisher.rs:200-201 | no run wraps the expected-period subtraction if and only if target <= finalized + 1 + period at construction |
| `PublisherRuns.WindowNeverOverrun` | crates/spec-sbcp/src/publisher.rs:132-147 | no run overruns a non-zero window if and only if construction does not |
| `PublisherRuns.ConstructionAllowsWrap` | crates/spec-sbcp/src/publisher.rs:106-126 | an accepted construction whose first proof wraps |
| `PublisherRuns.PairsFreshExactly` | crates/spec-sbcp/src/publisher.rs:129-367 | in every run pairs (period, sequence) increase between rollbacks; none is used twice if and only if no rollback lies between two starts of one period; then all hashed bytes differ |
| `PublisherRuns.RollbackReusesIdentifier` | crates/spec-sbcp/src/publisher.rs:356-367 | for every request that can start, a run that issues its instance twice |
| `ProverCalls.AnswerIsCurrentExactly` | crates/spec-sbcp/src/publisher.rs:246-259 | in every run an answer publishes, and all proofs behind it are from after the last rollback if and only if none was announced since the call |
| `ProverCalls.AnswerDeletesExactly` | crates/spec-sbcp/src/publisher.rs:256-257 | in every run what an answer deletes; it deletes a newer proof if and only if one was stored since the call and not cleared since |
| `ProverCalls.LateAnswerPublishes` | crates/spec-sbcp/src/publisher.rs:248-259 | a run in which a call from before a rollback publishes after it and is finalized |
| `ProverCalls.LateAnswerDeletes` | crates/spec-sbcp/src/publisher.rs:256-257 | a run in which such an answer deletes a proof collected after the rollback |
| `Sequencer.SequencerObject.StartPeriod` | crates/spec-sbcp/src/sequencer.rs:117-164 | keeps the invariant; settlement is due at once if and only if no block is open; what can be sealed or included stays; an open block settles on sealing if and only if it is of an earlier period; numbering starts afresh, in an unlocked open block and in the next one |
| `Sequencer.SequencerObject.StartSettlement` | crates/spec-sbcp/src/sequencer.rs:145-156 | the header was sealed in the period of the label, and there is one if and only if such a block is held |
| `SequencerModel.DeferralCommutes` | crates/spec-sbcp/src/sequencer.rs:117-295 | announcing then sealing ends in the state of sealing then announcing, with the same settlement due if and only if the block is of an earlier period |
| `Sequencer.SequencerObject.BeginBlock` | crates/spec-sbcp/src/sequencer.rs:167-186 | keeps the invariant; succeeds if and only if nothing is open and the number is next; the new block admits local transactions |
| `Sequencer.SequencerObject.CanIncludeLocalTx` | crates/spec-sbcp/src/sequencer.rs:189-195 | yes if and only if a block is open and unlocked; never an error while an instance is active |
| `Sequencer.SequencerObject.OnStartInstance` | crates/spec-sbcp/src/sequencer.rs:198-229 | keeps the invariant; succeeds if and only if local transactions are admitted, the period is the block's and the number is new; then nothing else starts and the block cannot be sealed |
| `Sequencer.SequencerObject.OnDecidedInstance` | crates/spec-sbcp/src/sequencer.rs:232-246 | keeps the invariant; succeeds if and only if that instance is active; then local transactions are admitted and exactly the next block can be sealed |
| `Sequencer.SequencerObject.EndBlock` | crates/spec-sbcp/src/sequencer.rs:249-295 | keeps the invariant; succeeds if and only if local transactions are admitted and the number is head + 1; head moves by one, only the block's own period is refiled, and the deferred settlement is due if and only if that period is over |
| `Sequencer.SequencerObject.Rollback` | crates/spec-sbcp/src/sequencer.rs:311-344 | keeps the invariant; succeeds if and only if it names the settled superblock, and returns its header; only the block after it is accepted next, and exactly the headers of finalized superblocks remain |
| `SequencerRuns.SettlementInOrder` | crates/spec-sbcp/src/sequencer.rs:130-164 | with increasing announcements: settlements fall due in strictly increasing period order, deferred ones included; at most one proof per period; proofs are in that order if and only if headers are read in the order of the triggers |
| `SequencerRuns.RepeatedAnnouncementSendsTwice` | crates/spec-sbcp/src/sequencer.rs:130-138 | without them it fails |
| `SequencerRuns.BlockDiscipline` | crates/spec-sbcp/src/sequencer.rs:167-288 | in every run: an active instance has an open block, the open block is head + 1, sealed numbers are consecutive between rollbacks |
| `SequencerRuns.SealedUnderAnnouncedPair` | crates/spec-sbcp/src/sequencer.rs:180-280 | in every run a block is sealed under a period and superblock number that were in force together |
| `SequencerRuns.SettlesLastBlock` | crates/spec-sbcp/src/sequencer.rs:145-164 | in every run the header read for a settlement is that of the block kept last in the period of its label at that moment, and absent if there is none |
| `SequencerRuns.ReadAsTriggeredExactly` | crates/spec-sbcp/src/sequencer.rs:130-156 | with increasing announcements it is the block kept at the trigger if and only if there was none or no rollback in between went below its superblock; otherwise it is absent |
| `SequencerRuns.RollbackBeforeRead` | crates/spec-sbcp/src/sequencer.rs:130-156 | a run in which a rollback between trigger and read loses the header |
| `SequencerRuns.KeptMeans` | crates/spec-sbcp/src/sequencer.rs:273-334 | a block is kept if and only if it was sealed last in its period and no later rollback went below its superblock |
| `SequencerRuns.SettledIsNewest` | crates/spec-sbcp/src/sequencer.rs:297-308 | after every run the settled state is the initial one or one L1 reported, and at least as new as every report |
| `SequencerRuns.InstanceNumbersRise` | crates/spec-sbcp/src/sequencer.rs:218-224 | in every run accepted sequence numbers rise strictly between announcements |
| `SequencerRuns.RefusedExactlyWhenPassed` | crates/spec-sbcp/src/sequencer.rs:132-224 | in every run an instance offered to an unlocked open block of its period is refused if and only if one with at least its number was accepted since the last announcement |
| `SequencerRuns.RollbackKeepsRefusing` | crates/spec-sbcp/src/sequencer.rs:330-343 | after a rollback exactly the numbers up to the last one are refused |
| `SequencerRuns.SealedHeadsGrow` | crates/spec-sbcp/src/sequencer.rs:273-287 | with non-decreasing periods the last sealed block grows with the period |
| `SequencerRuns.RollbackNeedsHighHeader` | crates/spec-sbcp/src/sequencer.rs:330-341 | from a rolled-back state all steady continuations keep that if and only if the head is at least every block kept |
| `SequencerRuns.RollbackInSteadyRun` | crates/spec-sbcp/src/sequencer.rs:311-341 | so after a rollback accepted in any steady run, if and only if the settled header is at least every block of a finalized superblock |
| `Settlement.LabelsWereAnnounced` | crates/spec-sbcp/src/sequencer.rs:130-164 | every proof sent is labelled with a pair the publisher announced |
| `Settlement.StaleProofsNeverStored` | crates/spec-sbcp/src/publisher.rs:190-211 | a proof that answers an announcement from before a rollback names a period below the one expected ever since, and is never stored |
| `Settlement.RollbackAcceptedExactly` | crates/spec-sbcp/src/sequencer.rs:311-323 | where L1 gives everyone one hash per superblock, a sequencer accepts an announced rollback if and only if the superblock finalized for the publisher then is the one settled for the sequencer now |
| `Settlement.AcceptedExactlyWhenCurrent` | crates/spec-sbcp/src/publisher.rs:172-211 | the label checks accept a sequencer's proof if and only if it answers an announcement made since the last rollback and names finalized + 1 |

## Left out

- QUIC transport, TLS, framing, protobuf and the conversions between wire and domain types: the wire request and the domain request are one type here.
- HTTP API, metrics, logging, configuration, main loops: only the fact that reaper and period steps may come at any time is kept.
- SHA-256, keccak, ABI encoding, signing and the L1 calls with their retries: the hash is a parameter, a submission succeeds or fails; superblock number and parent hash of the L1 payload are passed through and not modelled.
- Mailbox relay, ping, handshake and the mailbox consistency check: a batch that fails the check is a dropped batch.
- Fields of a proof that the payload does not use (mailbox root, verification keys, prover address).
- Latency measurement and statistics.
- Prover and messenger calls of the sequencer happen outside its locks; reading a header and sending its proof are one step, so the order proved is the order of the reads. `Settlement`, where headers play no part, takes trigger and sending as one step; its network delays and reorders proofs anyway.
- A lost wake-up by a task that is killed between releasing chains and draining is not considered: tasks run to completion.
- Looking up the chain of a connection and receiving its proof are two sections of the coordinator and one step here; a registration between them is not considered.
