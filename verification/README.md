# The replicated agent journal, verified

Synchestra keeps every change of its agent state as an event in a hash-chained journal. One endpoint is the authority and
writes; the others follow it. Authority moves by a fence-first promotion. Appends may be grouped into batches, journals may
live in memory or in database tables shared by many projects, a Git-backed journal pushes each commit with a
compare-and-swap, and the agent store builds leases and lifecycles on top by folding the log and appending against the head
it saw. This project models those layers in Dafny and proves what they promise, over every input, every interleaving and
every place a caller can stop.

`dafny verify dfyconfig.toml` checks everything.

## How it is organised

- `Runs`: runs of a state machine, shared by the three machines below.
- `Events`, `Chain`: the event envelope and the one rule that admits an event to a log. A checksum is an inductive value that
  contains everything it covers, so it is injective by construction, and equal checksums are proved to mean equal histories.
- `Endpoint` values and their operations (`Endpoints`), and `MemoryJournal`, the class whose methods update their fields in
  place and are each proved against those operations. `Replication` holds the loops that callers run over journal objects:
  event-by-event delivery, catch-up, outbox draining and `Promote`.
- `Tables`, `Keys`, `DalJournal`: the same decisions inside one transaction over string-keyed tables. A method takes the
  endpoint it represents as a ghost argument and shows that it still represents the endpoint the operation yields.
- `Cluster`, `Safety`, `Promotion`, `FenceRace`: a whole project as a map of endpoints with every write path as a step:
  unbatched appends, enqueued appends committed at any later time, deliveries of any event of any log, and any number of outbox
  drains and promotion calls, each advancing one step at a time or never again. The invariant names one endpoint, the tip, that
  holds the longest history; every other log is a prefix of it and only the tip may be active. What a drain will acknowledge
  is in the log of the replica it drains to. `Promote` itself is shown to be a run of this cluster.
- `Batcher`, `Closing`, `AppendBatcher`: the group-commit windows as a state machine in which draining and committing are
  separate steps, what a close leaves, and the class that takes those steps.
- `Snapshots`: checkpoints, restore and the convergence check.
- `Leases`, `Lifecycle`, `AgentStore`, `Store`, `WorktreeKeys`: the lease fold and a sequential lease automaton written
  independently of it; the lifecycle table; a world of concurrent calls whose head reads, log reads and appends interleave;
  and the retry loops themselves, run against a journal that others change between any two statements, for as many attempts as
  they like: undisturbed calls are shown to succeed, disturbed ones to be safe.
- `Commits`, `GitDelivery`: a commit graph with a local and a remote branch, receipts, and the delivery procedure with a stop
  or a push by somebody else possible between any two steps, exactly when it finishes, and a run after which it never does.

Names in the code are Go byte strings, so `Text` is a sequence of bytes. Clocks, minted names, storage failures, crashes and
other writers are arguments or arbitrary choices, so every statement holds for all of them.

Assumptions about the surroundings. Endpoint ids are unique. Domain writers emit no promotion events (their event kinds are
listed in pkg/state/agentstore/schema.go:76-89). Events reach `IngestReplica` from some endpoint's log, and `PromoteToActive`
is called by `Promote`. A drain is started with the journal its replica id names. A cluster starts with empty logs and outboxes
and one active endpoint at epoch 1. `NewID` returns names not used before and that nobody else ever uses: in `Store` the names
one store mints share a prefix no other writer's names have, which is how its own events are told from the others in the
journal. Clocks are arbitrary as long as they read later than Go's zero time. Lease and lifecycle events are written by the
agent store only. A transaction is atomic and sees its own writes. Others may push anything to the Git branch except this
endpoint's own commits.

## Where code and documentation differ

- `DALJournal` checks the chain before the idempotency key, `MemoryJournal` the key first, although the two are described as
  matching. `Tables.BackendsAgree` shows that they accept the same events and exactly when their refusals differ;
  `Tables.RefusalsDiffer` gives such an event for every log that is not empty.
- A batched append that races a fence is described as ending in a commit or a role error. A window that was drained but not
  committed when the fence ran is neither: `FenceRace.FenceRaceRun` is a run from a fresh cluster whose accepted append is
  answered with the epoch error. `FenceRace.LateCommitAnswers` states every answer such a window can get: never the role error;
  the epoch error exactly for an event that verifies, is of this project, has an unused id and key and is of an epoch the log
  has left; after a fence that is every queued event's epoch, and only events already in the log are confirmed.
- `Close` is described as leaving everything durable. A window another trigger has drained and not yet committed is not
  awaited: `Closing.CloseRun` is a run from every fresh batcher with a time window after which `Close` has committed its own
  window and the append accepted first is unanswered. `Closing.CloseExact`: after Close's own commit every accepted append is
  answered exactly if no other drained window was uncommitted.
- A stop between removing the pending and the intent receipt is described as resumable. If somebody pushed on top of the
  commit and the local branch was levelled before the stop, the operation counts two commits past its base and is refused on
  every later attempt: `GitDeliveries.OvertakenRun` takes the delivery there through two stops and one foreign push. The
  contract of `GitDeliveries.GitPushJournal.RunOperationLocked` is exact: a run in which nothing goes wrong finishes if and
  only if `Finishes` holds before it, and no run finishes otherwise. `GitDeliveries.IntentFinishesExactly` spells the condition
  out where only the intent is left, which includes the operation whose lease somebody else's push on its base took.
- A worktree's lease resource joins its names with colons and is described as one claim per project, repository and branch.
  `WorktreeKeys.KeyIsExclusive`: among the worktrees that can be claimed, whose names are not blank, this holds exactly unless
  some colon of the project has text before it, some colon of the branch has text after it, or some colon of the repository
  has text on either side; with one, two worktrees exclude each other.

## Model

| member | source | states |
|---|---|---|
| Events.NewEvent | pkg/state/replication/types.go:131-153 | Signing succeeds exactly on complete fields, an empty schema meaning the current one, keeps them and the given predecessor hash, and the result passes its own verification |
| Chain.Linked | pkg/state/replication/journal.go:592-610 | In every admitted log each event names its predecessor's checksum, and cursors step by one in sequence or to the first of the next epoch |
| Chain.CursorsIncrease | pkg/state/replication/journal.go:592-610 | Cursors of any admitted log strictly increase |
| Chain.LaterIsFresh | pkg/state/replication/journal.go:583-591 | No later event of an admitted log reuses an id or an idempotency key |
| Chain.SameHeadHashSameLog | pkg/state/replication/types.go:226-235 | A head hash identifies the complete log it belongs to, even across projects |
| Chain.SameChecksumSameHistory | pkg/state/replication/types.go:226-235 | Equal checksums at two positions of two logs mean equal positions and equal histories up to them |
| Chain.DecideExact | pkg/state/replication/journal.go:573-620 | An append is a silent replay exactly for members of the log and commits exactly for verified, unused, true successors |
| Chain.CommitFollowsHistory | pkg/state/replication/journal.go:573-620 | An event of a longer history commits on a prefix of it only as the very next event |
| Endpoints.ReplicateExact | pkg/state/replication/journal.go:172-222 | Replication succeeds exactly when the replica holds a prefix it may extend, then the logs are equal; otherwise the replica is unchanged |
| Endpoints.ReplicateSays | pkg/state/replication/journal.go:161-170 | A replica that holds more is refused as ahead, one that ends at the same cursor with another history as diverged |
| Endpoints.StopsAtRefusal | pkg/state/replication/journal.go:202-222 | A delivery that stops took everything before the event it stopped at, and that event is the one refused |
| Endpoints.IngestRest | pkg/state/replication/journal.go:202-222 | A replica holding a prefix of a valid history takes the rest of it, event by event, to any length |
| Endpoints.AfterHeadOfPrefix | pkg/state/replication/journal.go:622-632 | Reading after the head of a prefix yields exactly the rest of the log |
| MemoryJournals.MemoryJournal.constructor | pkg/state/replication/journal.go:336-366 | A new journal has an empty log, consistent indexes and an empty outbox per configured replica |
| MemoryJournals.NewMemoryJournal | pkg/state/replication/journal.go:332-366 | Construction is refused exactly for blank ids, a non-positive epoch, or blank or repeated replica ids |
| MemoryJournals.MemoryJournal.AppendData | pkg/state/replication/journal.go:573-620 | The indexed, cached, in-place append computes the log rule and keeps log, head and indexes consistent |
| MemoryJournals.MemoryJournal.Judge | pkg/state/replication/journal.go:575-610 | The checks made on the indexes and the cached head give the verdict defined on the log |
| MemoryJournals.MemoryJournal.Append | pkg/state/replication/journal.go:404-427 | Without batching, only the active endpoint at its own epoch appends; the new state is the endpoint operation's |
| MemoryJournals.MemoryJournal.IngestReplica | pkg/state/replication/journal.go:429-438 | Only a replica ingests; the new state is the endpoint operation's |
| MemoryJournals.MemoryJournal.CommitBatch | pkg/state/replication/journal.go:554-571 | A window is committed with the log, outbox and answers of appending its events one by one |
| MemoryJournals.MemoryJournal.FenceAsReplica | pkg/state/replication/journal.go:450-476 | On the active endpoint what the batcher has pending is committed first; then one checkpoint of the next epoch is appended and the endpoint becomes a replica, or nothing more changes |
| MemoryJournals.MemoryJournal.PromoteToActive | pkg/state/replication/journal.go:480-513 | The role flips only with the checkpoint at the head; the flip precedes the check of the replica ids |
| MemoryJournals.MemoryJournal.PendingOutbox | pkg/state/replication/journal.go:518-530 | The waiting rows, all of them and nothing else, in cursor order; a blank replica id is refused |
| MemoryJournals.MemoryJournal.AckOutbox | pkg/state/replication/journal.go:538-552 | Blank ids refuse the call and change nothing; otherwise exactly the named rows of that replica go |
| MemoryJournals.MemoryJournal.After | pkg/state/replication/journal.go:622-632 | The events beyond a cursor, in order |
| Replication.IngestEvents | pkg/state/replication/journal.go:202-222 | Delivery stops at the first refusal; the applied ids, cursor and lag reported are those of the events that went in |
| Replication.Replicate | pkg/state/replication/journal.go:172-200 | Over journal objects, catching up ends with equal logs or leaves the replica as it was |
| Replication.DrainOutbox | pkg/state/replication/outbox.go:78-116 | A row goes only if the replica holds its event, a stop before the acknowledgement removes none, success leaves none, a refusal leaves exactly the rows from the refused one on, and rows covering the rest of the log bring the replica level |
| Replication.DrainLevels | pkg/state/replication/outbox.go:78-116 | In cursor order the waiting rows, repeats included, all go in and leave the replica with the source's log |
| Replication.AckedRows | pkg/state/replication/outbox.go:98-102 | After acknowledging the applied prefix every removed row is held by the replica and all other rows are untouched |
| Endpoints.WindowKeepsHeld | pkg/state/replication/journal.go:554-571 | Group commits keep every outbox row filed under its own event of the log |
| Endpoints.FenceKeepsHeld | pkg/state/replication/promotion.go:420-485 | Fencing keeps every outbox row filed under its own event of the log |
| Replication.FanOut | pkg/state/replication/promotion.go:294-313 | Each other endpoint is offered the checkpoint, however often it is listed, and one refusal stops nobody else |
| Replication.Promote | pkg/state/replication/promotion.go:209-313 | The procedure over journal objects ends as the two-endpoint promotion does, which is a run of the cluster and succeeds exactly as stated below, and informs others only after the swap |
| Replication.IngestTwice | pkg/state/replication/journal.go:583-588 | Delivering an event a second time changes nothing and gives the same answer |
| Clusters.FenceExact | pkg/state/replication/promotion.go:420-448 | A fence goes through only on the active tip and appends exactly one checkpoint, at the next epoch, naming both endpoints |
| Clusters.FlipNeedsNewest | pkg/state/replication/promotion.go:458-485 | A replica can flip only when its head is the newest checkpoint of the whole history and nobody is active |
| Clusters.WindowCommits | pkg/state/replication/batch.go:235-284 | A window drained at any earlier time commits only events of the current term; on a fenced endpoint it commits nothing and changes nothing |
| Clusters.StepDrainNext | pkg/state/replication/outbox.go:78-96 | A drain delivers the next row it read and counts it applied only if the replica took it; whatever else runs, what it read is in its endpoint's log and what it will acknowledge in the replica's |
| Clusters.StepAcknowledge | pkg/state/replication/outbox.go:96-102 | Deleting the rows of what a drain delivered keeps the invariant of the cluster and of every other drain |
| Clusters.StepKeepsInv | pkg/state/replication/promotion.go:143-208 | Every step of every write path, every outbox drain and every promotion call keeps the cluster invariant |
| Safety.SingleAuthority | pkg/state/replication/promotion.go:146-165 | In every reachable state at most one endpoint is active |
| Safety.ActiveIsNamed | pkg/state/replication/promotion.go:173-176 | Whoever is active after the first epoch is the candidate that epoch's own checkpoint names |
| Safety.OneCheckpointPerEpoch | pkg/state/replication/promotion.go:157-164 | Two checkpoints of one epoch anywhere in the system are the same event |
| Safety.EpochHasOneHolder | pkg/state/replication/promotion.go:157-164 | Over a whole run no two endpoints are ever active at the same epoch |
| Safety.OneHistory | pkg/state/replication/journal.go:573-620 | All logs are pairwise prefix-comparable and the active one extends every other |
| Safety.FencedHoldsHistory | pkg/state/replication/promotion.go:184-198 | With nobody active, the endpoint just fenced holds the longest history, ending in its own checkpoint |
| Safety.AcknowledgedSurvives | pkg/state/replication/promotion.go:258-292 | An acknowledged event is at its cursor's position in the log of whoever is active later |
| Safety.LeftEpochIsSealed | pkg/state/replication/batch.go:115-133 | Once an epoch has been left, no event of it is ever committed anywhere that was not in the history already |
| Safety.FenceSealsTerm | pkg/state/replication/promotion.go:420-448 | From a fence on, the term's events are exactly those before its checkpoint, even for windows already drained |
| Safety.AcknowledgeIsHonest | pkg/state/replication/outbox.go:96-102 | In every reachable cluster an acknowledgement removes the row of an event only if the replica it waited for holds that very event, however drains race or stop |
| Safety.DeliveryNeverDropped | pkg/state/replication/outbox.go:43-62 | An event committed while a replica was configured is, at every later point of any run of writes, drains and promotions, waiting for it or in its log |
| FenceRace.LateCommitAnswers | pkg/state/replication/batch.go:115-133 | Whenever a drained window is committed no event is told of the role, and one is told of the epoch exactly when it is good, unused and of an epoch the log has left; after a fence nothing is added |
| FenceRace.EpochErrorExact | pkg/state/replication/journal.go:573-620 | The epoch error answers exactly the events with nothing else wrong whose epoch the log has left |
| FenceRace.FenceRaceRun | pkg/state/replication/batch.go:115-133 | A run from a fresh cluster in which an accepted append ends in the epoch error |
| Promotion.FenceKeyIsResumeKey | pkg/state/replication/promotion.go:217-222 | The key a fence stores is the key a repeated call looks for, whatever key or none was given |
| Promotion.PromoteIsARun | pkg/state/replication/promotion.go:209-313 | A whole promotion over any two endpoints of a reachable cluster, whatever request and however it ends, is a run of the cluster: a fence or the recognition of one, deliveries, a flip |
| Promotion.PromoteKeepsOneAuthority | pkg/state/replication/promotion.go:146-165 | After any promotion call over any two endpoints of a reachable cluster at most one endpoint is active |
| Promotion.ResumedPromotionExact | pkg/state/replication/promotion.go:322-350 | On an endpoint that is not active a call succeeds exactly if its head checkpoint names that candidate under the effective key and the candidate is not past it; it adds no event |
| Promotion.PromotedServes | pkg/state/replication/promotion.go:458-485 | The new active serves exactly the replicas of the request and keeps every row waiting at it |
| Promotion.CatchUpCompletes | pkg/state/replication/promotion.go:258-292 | From a fence, catching up and flipping always succeeds for a lagging replica with valid replica ids |
| Promotion.EveryStalledPromotionResumes | pkg/state/replication/promotion.go:184-198 | In any reachable state with nobody active, repeating the stopped call completes it with no further event |
| Promotion.StoppedPromotionResumes | pkg/state/replication/promotion.go:184-198 | A call stopped after its fence, repeated after anything else, ends with its candidate active at the old epoch plus one |
| Promotion.InterleavedPromotionCompletes | pkg/state/replication/promotion.go:258-292 | With any other steps between its own, a call that holds its checkpoint and delivers what its candidate lacks can flip it, and ends with it active at the checkpoint's epoch with the fenced log |
| Promotion.DeliveredInOrder | pkg/state/replication/journal.go:202-222 | The deliveries of a catch-up add up however other steps come in between |
| Promotion.FreshPromotionExact | pkg/state/replication/promotion.go:209-313 | A first promotion succeeds exactly for a complete request, valid replica ids, a non-empty journal and an unused key |
| Sorting.SortStable | pkg/state/replication/batch.go:265-268 | Sorting a window keeps the order of events with equal cursors |
| Batching.StepKeepsInv | pkg/state/replication/batch.go:166-336 | Enqueueing, the three triggers, closing and committing keep placement, answers, durability and trigger coverage |
| Batching.ExactlyOnce | pkg/state/replication/batch.go:235-284 | Every accepted append is pending or in one drained window, once; it is answered exactly when that window has been committed, and nil only if in the log |
| Batching.AnswersAreExact | pkg/state/replication/batch.go:265-284 | When a window is committed its callers are answered nil exactly if their event is in the log, or all with the failure if the transaction failed, which leaves the log alone |
| Batching.OwnVerdict | pkg/state/replication/batch.go:273-284 | Every waiter receives the verdict on its own event |
| Batching.AnswerIsFinal | pkg/state/replication/batch.go:265-284 | An answer once delivered is never delivered again or changed |
| Batching.TriggerDrainsItsOwn | pkg/state/replication/batch.go:207-263 | A threshold trigger only ever drains the window its own event joined |
| Batching.StaleTimerDrainsNothing | pkg/state/replication/batch.go:196-207 | A timer callback of an earlier window drains nothing |
| Batching.NobodyStranded | pkg/state/replication/batch.go:166-183 | When no trigger, closer or commit is outstanding every append is answered, unless time flushing is off and less than a batch waits |
| Closing.CloseExact | pkg/state/replication/batch.go:310-336 | Once Close has committed its own window every accepted append is answered exactly if no other drained window was uncommitted |
| Closing.CloseRun | pkg/state/replication/batch.go:310-336 | From any fresh batcher with a time window: a run after which Close has returned and the append accepted first is unanswered |
| Batching.ArrivalOrderIrrelevant | pkg/state/replication/batch.go:265-284 | A run of successive events commits completely in chain order, whatever order it was enqueued in |
| Batching.ChainIsAnswered | pkg/state/replication/batch.go:265-284 | A window of successive events, in whatever order it was enqueued, is appended in chain order and every one of its callers is answered nil |
| AppendBatchers.AppendBatcher.Enqueue | pkg/state/replication/batch.go:166-183 | Enqueueing refuses after close, arms the one timer, and reports the threshold with the generation joined |
| AppendBatchers.AppendBatcher.Append | pkg/state/replication/journal.go:404-427 | With batching, an append is refused for its role or epoch or after close, else enqueued; if it crosses the threshold its window is drained and committed and it is answered nil exactly if its event is in the log, or with the failure of the transaction |
| AppendBatchers.AppendBatcher.DrainWindow | pkg/state/replication/batch.go:235-252 | The locked half of a flush drains everything or, for a stale generation, nothing |
| AppendBatchers.AppendBatcher.CommitItems | pkg/state/replication/batch.go:265-284 | The unlocked half commits the window in cursor order and answers every waiter: nil exactly if its event is in the log, or all alike on failure |
| AppendBatchers.AppendBatcher.CallCommit | pkg/state/replication/batch.go:301-308 | A failing or panicking commit becomes one answer for everybody and leaves the journal as it was |
| AppendBatchers.AppendBatcher.Close | pkg/state/replication/batch.go:323-336 | Closing answers everything pending, nil exactly if the event is in the log, reports its own flush's failure, and does nothing a second time |
| Keys.PartRoundTrip | pkg/state/replication/dal_journal.go:550-554 | The unpadded base64url segment of any id decodes to it |
| Keys.SplitScanned | pkg/state/replication/dal_journal.go:556-587 | Splitting a key at its dots gives back the segments it was built from |
| Keys.PrefixIsExact | pkg/state/replication/dal_journal.go:579-587 | A replica's key prefix matches a row's key exactly when project and replica are the same, for all ids |
| Keys.OutboxKeyInjective | pkg/state/replication/dal_journal.go:585-587 | Outbox keys identify project, replica and event |
| Keys.EventKeyInjective | pkg/state/replication/dal_journal.go:575-577 | Event keys identify project and event |
| Keys.HeadKeyInjective | pkg/state/replication/dal_journal.go:588-590 | Head keys identify the project |
| Tables.BackendsAgree | pkg/state/replication/dal_journal.go:299-341 | Both backends commit and replay the same events; their refusals differ exactly for a used key on a broken chain |
| Tables.RefusalsDiffer | pkg/state/replication/dal_journal.go:299-341 | On every log that is not empty one event is refused for its key by one backend and for its place by the other |
| Tables.WriteEventRows | pkg/state/replication/dal_journal.go:324-333 | A commit extends its own project's rows by one event and leaves every other project's alone |
| Tables.WriteOutboxRows | pkg/state/replication/dal_journal.go:334-338 | A commit adds one row per configured replica of its project and no other row |
| Tables.DropOutboxRows | pkg/state/replication/dal_journal.go:459-467 | An acknowledgement removes exactly the named rows of that replica of that project |
| Tables.ScanIsExact | pkg/state/replication/dal_journal.go:646-697 | The prefix scan sees exactly the rows waiting for that replica of that project |
| DalJournals.ScanIsAfter | pkg/state/replication/dal_journal.go:402-415 | Sorting an unordered scan gives the log beyond the cursor |
| DalJournals.LoadHead | pkg/state/replication/dal_journal.go:504-522 | Scanning the shared head table finds exactly this project's head |
| DalJournals.LoadEvent | pkg/state/replication/dal_journal.go:524-535 | The scan finds an event exactly when the project's log has its id |
| DalJournals.DALJournal.CommitOneLocked | pkg/state/replication/dal_journal.go:289-341 | Rows are written exactly for a committed event; a replay or a refusal writes nothing and keeps head and hash |
| DalJournals.DALJournal.AppendTx | pkg/state/replication/dal_journal.go:241-268 | One transaction does what the endpoint operation does, or on a storage failure nothing; other projects are untouched |
| DalJournals.DALJournal.CommitBatch | pkg/state/replication/dal_journal.go:343-400 | One transaction with one head write equals appending the events one by one; an infrastructure failure leaves nothing behind |
| DalJournals.DALJournal.FenceAsReplica | pkg/state/replication/promotion.go:420-448 | What is pending is committed first, or not at all if that fails; the role changes only after the checkpoint is durable |
| DalJournals.DALJournal.PromoteToActive | pkg/state/replication/promotion.go:458-485 | Promotion over tables is the endpoint operation, or a failed read of the head changes nothing |
| DalJournals.DALJournal.After | pkg/state/replication/dal_journal.go:402-415 | A scan over every project's rows yields exactly this project's events beyond the cursor, in order |
| DalJournals.DALJournal.HeadEvent | pkg/state/replication/dal_journal.go:162-183 | Reading just below the head cursor yields the last event |
| DalJournals.DALJournal.PendingOutbox | pkg/state/replication/dal_journal.go:421-431 | All rows waiting for that replica and no other, in cursor order |
| DalJournals.DALJournal.AckOutbox | pkg/state/replication/dal_journal.go:433-468 | Exactly the named rows go, in one transaction, or none |
| Snapshots.TakeExact | pkg/state/replication/checkpoint.go:65-127 | A checkpoint can be taken exactly at cursors the journal has, and holds the history up to there |
| Snapshots.VerifyExact | pkg/state/replication/checkpoint.go:139-174 | A checkpoint verifies exactly if it is well stated and its events are a valid history of its project, repeats aside, that ends at its cursor with its content hash |
| Snapshots.RestoreExact | pkg/state/replication/checkpoint.go:176-234 | Restore is all or nothing: it fills exactly an empty replica of the project and never makes it active |
| Snapshots.RoundTrip | pkg/state/replication/checkpoint.go:65-234 | A checkpoint taken at any cursor of a valid journal verifies and restores exactly the log up to it |
| Snapshots.EqualHashRestoresEqual | pkg/state/replication/checkpoint.go:41-53 | Equal content hashes restore equal logs, whoever took the checkpoints |
| Snapshots.ComparisonExact | pkg/state/replication/checkpoint.go:245-322 | The comparison returns exactly when both sides have the cursor, and says equivalent exactly when the histories up to it are equal |
| Snapshots.LaggingIsEquivalent | pkg/state/replication/checkpoint.go:245-285 | Without a cursor a log and any lagging copy of it are compared, either way round, at the head of the copy and found equivalent |
| Snapshots.PartedIsNotEquivalent | pkg/state/replication/checkpoint.go:245-285 | Without a cursor logs that part before the lower head are never found equivalent |
| Snapshots.NewCheckpoint | pkg/state/replication/checkpoint.go:69-127 | The loop over the journal computes the checkpoint or its error |
| Snapshots.VerifyCheckpoint | pkg/state/replication/checkpoint.go:139-174 | Replaying into a throwaway replica decides validity |
| Snapshots.RestoreInto | pkg/state/replication/checkpoint.go:210-234 | Restoring into a journal object ends with the replayed log and the replica role |
| Snapshots.VerifyConvergence | pkg/state/replication/checkpoint.go:262-293 | Over journal objects the verdict is exact |
| Leases.FoldLeaseProjection | pkg/state/agentstore/lease.go:123-208 | The loop over three maps computes the fold of the log |
| Leases.FoldRefines | pkg/state/agentstore/lease.go:123-208 | On every legal log the projection is the lease automaton's state, resource index included |
| Leases.DecisionIsLegal | pkg/state/agentstore/lease.go:218-450 | Whatever a call decides from a legal log may follow it in the automaton, and the lease it answers is the one then in force |
| Leases.OneHolder | pkg/state/agentstore/lease.go:18-22 | A resource has at most one unreleased lease |
| Leases.SupersededForever | pkg/state/agentstore/lease.go:300-311 | A superseded token stays superseded in every legal extension of the log |
| Leases.SupersededIsRefused | pkg/state/agentstore/lease.go:319-328 | No renewal, release or transfer presenting a superseded token is told to append |
| Leases.EndSupersedes | pkg/state/agentstore/lease.go:157-205 | Release, reclaim and transfer each supersede the token that was in force |
| Leases.NoEarlyTakeover | pkg/state/agentstore/lease.go:239-273 | A reclaim's clock is at or past the holder's deadline as every renewal before it moved it |
| Leases.AcquireExact | pkg/state/agentstore/lease.go:218-298 | Malformed requests are refused, a free resource is granted, a held one taken over exactly after its deadline, otherwise the call conflicts; what is granted is the resource, holder and time to live asked for, from now on |
| Leases.RenewExact | pkg/state/agentstore/lease.go:312-346 | A renewal succeeds exactly under the fence in force and counts the granted time to live from now on; otherwise the lease is unknown or fenced |
| Leases.ReleaseExact | pkg/state/agentstore/lease.go:354-383 | A release succeeds exactly under the fence in force and ends the lease; one already ended has nothing to do |
| Leases.TransferExact | pkg/state/agentstore/lease.go:405-450 | A transfer succeeds exactly under the fence in force; holder and fence change, the granted time to live counts from now on |
| Leases.TtlConserved | pkg/state/agentstore/lease.go:330-346 | At every point deadline minus last renewal is the granted time to live, or neither exists |
| Lifecycles.FoldSubjects | pkg/state/agentstore/effort.go:62-102 | The loop computes each subject's status and disposition |
| Lifecycles.LogIsPath | pkg/state/agentstore/lifecycle.go:24-113 | In a legal log statuses are a path through the table, and a disposition is set exactly when terminal or archived |
| Lifecycles.TransitionStatesItsSource | pkg/state/agentstore/effort.go:162-199 | Every transition event states the status right before it |
| Lifecycles.TransitionExact | pkg/state/agentstore/lifecycle.go:90-113 | A request is granted exactly if the subject is known, its path stays on the table with the target added, and a disposition is given for a terminal target and no other |
| Lifecycles.ArchiveAbsorbs | pkg/state/agentstore/lifecycle.go:20-23 | After a subject is archived a legal log holds no event about it and its record never changes |
| AgentStores.PinnedCommitSawEverything | pkg/state/agentstore/store.go:159-210 | An event pinned to an observed head commits only if nothing was appended since the observation, so its snapshot was complete |
| AgentStores.StepKeepsInv | pkg/state/agentstore/store.go:159-245 | Every head read, log read, submission, commit, cancellation and foreign write keeps the invariant of the concurrent world |
| AgentStores.Linearizable | pkg/state/agentstore/lease.go:218-450 | Under every interleaving the lease events run the automaton, transitions walk the table, and each event is what its call decides from the log right before it |
| AgentStores.AnswersAreTrue | pkg/state/agentstore/store.go:182-210 | A success has exactly one event, where it says; a failure other than giving up waiting has none and never will |
| AgentStores.AnswersAreFinal | pkg/state/agentstore/store.go:225-244 | Over any continuation of a run an answered call keeps its answer and, with nothing in flight, appends nothing more |
| AgentStores.NextIsAccepted | pkg/state/agentstore/store.go:246-258 | An event built on the head of an active endpoint in its own term, under a new name, is taken as the next event |
| AgentStores.UncontendedSucceeds | pkg/state/agentstore/store.go:159-210 | In every reachable state a call that nobody gets in the way of appends what it decides from the log and answers with its position, or answers its decision not to |
| AgentStores.LostRaceIsRetried | pkg/state/agentstore/store.go:225-244 | A call whose good event came too late tries again from a fresh read, up to eight attempts |
| AgentStores.FencedOutForever | pkg/state/agentstore/lease.go:300-450 | After a token is superseded, no event anywhere later in any reachable log comes from a call presenting it |
| AgentStores.OneWriterPerResource | pkg/state/agentstore/lease.go:18-22 | In every reachable state a resource has at most one unreleased lease |
| AgentStores.TakeoversWait | pkg/state/agentstore/lease.go:239-273 | In every reachable state all takeovers waited for the deadline and all leases keep their granted time to live |
| AgentStores.TakeoversWaitAsLongAsAsked | pkg/state/agentstore/lease.go:218-298 | In every reachable state a takeover's clock is past the holder's last renewal by at least the time to live its acquiring call asked for |
| AgentStores.LifecyclesArePaths | pkg/state/agentstore/run.go:227-266 | In every reachable state efforts and runs have walked the table |
| Stores.LeaseFoldOfOnly | pkg/state/agentstore/store.go:280-310 | Loading only the lease kinds gives the projection of the whole log |
| Stores.Store.Snapshot | pkg/state/agentstore/store.go:170-180 | The events read are at least as complete as the head read before them |
| Stores.Store.TryAppendAt | pkg/state/agentstore/store.go:182-210 | Success means the log is what the snapshot saw plus this one event; failure means the journal holds no event of this store it did not hold before; on a ready journal that nobody touches it succeeds |
| Stores.Store.Perform | pkg/state/agentstore/lease.go:218-450 | A lease call's own event is the last one and is what the call decides from everything before it, against any interference; on failure the journal gained none of its events; undisturbed on a ready journal the answer is the decision, and disturbed in fewer attempts than there are it never runs out of retries there |
| Stores.Store.AppendWithRetry | pkg/state/agentstore/store.go:225-244 | A fact is in the journal once more after success, and not at all after failure; undisturbed on a ready journal it succeeds |
| Stores.Store.Transition | pkg/state/agentstore/effort.go:157-199 | A transition is decided from the status right before its own event, and the record answered is the one then folded; on failure the journal gained none of its events; undisturbed on a ready journal the answer is the decision |
| Stores.Store.RenewClaim | pkg/state/agentstore/worktree.go:245-281 | Renewing a claim under a superseded fence fails and leaves none of its events in the journal; undisturbed under the fence in force it succeeds |
| Stores.Store.ReleaseClaim | pkg/state/agentstore/worktree.go:283-297 | Releasing a claim under a superseded fence leaves no lease event of this store's in the journal; undisturbed under the fence in force it succeeds |
| Stores.Store.HandoffClaim | pkg/state/agentstore/worktree.go:336-370 | Handing a claim off under a superseded fence fails and leaves none of its events in the journal; undisturbed under the fence in force it succeeds |
| Stores.Store.ClaimWorktree | pkg/state/agentstore/worktree.go:188-243 | A claim is one lease event and one claim event under the lease's own id, for the run that asked and for one hour, closing an abandoned claim with it; blank names are refused; undisturbed a free worktree is granted |
| Stores.ClaimsExact | pkg/state/agentstore/worktree.go:115-186 | The folded claims are the recorded ones, closed exactly if released or taken over since they were recorded |
| WorktreeKeys.KeyIsExclusive | pkg/state/agentstore/worktree.go:34-39 | Among claimable worktrees one lease resource per worktree holds exactly for those without a colon another worktree could use as a joint |
| Commits.OwnHistory | pkg/state/replication/git_push_journal.go:1033-1050 | An append is one commit on top of its base and one past it |
| GitDeliveries.OneCommitPerEvent | pkg/state/replication/git_push_journal.go:406-526 | In every state a delivery can leave, an event is in exactly one commit of both branches together |
| GitDeliveries.PushedHere | pkg/state/replication/git_push_journal.go:503-511 | A push under its lease moves the remote only to a descendant |
| GitDeliveries.UndisturbedShape | pkg/state/replication/git_push_journal.go:437-478 | If nobody else pushed since the base, the local branch is the base or exactly one own commit ahead |
| GitDeliveries.GitPushJournal.Bind | pkg/state/replication/git_push_journal.go:457-489 | The head found must hold the event and be at most one commit past the base before a receipt names it |
| GitDeliveries.GitPushJournal.RemoveOperation | pkg/state/replication/git_push_journal.go:927-942 | The pending file goes first; a stop in between leaves the intent |
| GitDeliveries.GitPushJournal.PushPendingLocked | pkg/state/replication/git_push_journal.go:493-526 | A pending receipt goes only once its event is proven on the remote; it can finish exactly if its commit is on the remote or its base still is the remote head |
| GitDeliveries.GitPushJournal.Commit | pkg/state/replication/git_push_journal.go:441-489 | From an intent to a named head exactly when the write is taken or past and the head found is one commit past the base at most; an overtaken operation changes nothing |
| GitDeliveries.GitPushJournal.RunOperationLocked | pkg/state/replication/git_push_journal.go:406-526 | From any stop: both branches only move to descendants, the receipt goes only after the event is on the remote or the write changed nothing, other receipts stay; a calm run finishes if and only if the stated condition holds before it, and no other run finishes without it |
| GitDeliveries.GitPushJournal.Deliver | pkg/state/replication/git_push_journal.go:146-200 | A refused event changes nothing; any other is run through the operation its kind and checksum name; with nothing outstanding and level branches a calm run takes a replica's next event, or the active endpoint's of its own term, into the log and onto the remote |
| GitDeliveries.SeamsTake | pkg/state/replication/git_push_journal.go:146-172 | Appends go to the active endpoint at its own epoch and ingests to a replica, each taking members and next events of the log and nothing else |
| GitDeliveries.IntentFinishesExactly | pkg/state/replication/git_push_journal.go:441-510 | The condition with only the intent left, by where the local branch is: on the base, one own commit ahead, or anywhere else |
| GitDeliveries.UndisturbedFinishes | pkg/state/replication/git_push_journal.go:437-526 | With nobody else's push since its intent every stopped operation finishes unless the journal refuses its event now |
| GitDeliveries.PushesDoNotHelp | pkg/state/replication/git_push_journal.go:497-511 | A receipt that cannot land now cannot land after any push by others |
| GitDeliveries.OvertakenRun | pkg/state/replication/git_push_journal.go:467-478 | A run from a fresh clone through two stops and one foreign push after which the event is on the remote and no run of its operation succeeds or changes anything |

## Left out

- Widths: cursors, epochs and sequence numbers are unbounded integers; int64 and uint64 wrap-around is not modelled.
- JSON: payloads are values, canonical encoding, decoding errors and the UTC location check of timestamps are not modelled.
- SHA-256 (FIPS 180-4) is replaced by an injective constructor; collisions do not exist in the model.
- Blank text: only ASCII white space is blank; Unicode white space is not.
- Replica ids are kept in the order given; the source sorts them, which no result depends on.
- Nil journals and typed-nil interfaces are not modelled; every journal argument is an object.
- Clusters: restarting an endpoint with a stale configured role is not a step; every endpoint keeps its role for the run.
- Clusters: an acknowledgement that a storage failure later undoes is not modelled; transactions are atomic and durable.
- Replication.Promote: is stated for two distinct journal objects, since endpoint ids are unique, and with nothing pending in the batcher; fencing with a pending window is stated for the journals.
- Promotion.StoppedPromotionResumes: assumes the candidate has not written past the checkpoint, which is when the promotion has already happened.
- MemoryJournals.MemoryJournal.Append: is the path without batching; the batched one is AppendBatchers.AppendBatcher.Append, which takes its steps without interruption, and the steps of the state machines beside it.
- Promotion.InterleavedPromotionCompletes: assumes, as above, that the candidate has not written past the checkpoint.
- AppendBatchers.AppendBatcher.Flush: takes both halves without interruption; the state machine beside it has them as separate steps.
- Batching: item limits are not an upper bound on a window, because more may join between the threshold and its flush, and nothing of the kind is stated.
- Batching: resolving configured defaults (100 items, 1000 ms) is plain lookup.
- DalJournals.DALJournal.constructor: takes valid options; the refusals are those stated for the in-memory journal.
- Stores.Store.constructor: takes the options the source accepts; refusing blank or non-positive ones is plain validation.
- GitDeliveries.GitPushJournal.constructor: starts from a clone that is level with its remote and records exactly the journal.
- DalJournals.LoadHead: more than one head row for a project cannot occur in the tables as modelled, so that error is not.
- Snapshots.VerifyCheckpoint: every refusal is one error; the messages that tell them apart are not modelled.
- Lifecycles: titles, models, end times and other fields of efforts and runs do not influence status or disposition.
- AgentStores: `Run.Finish` and `Run.Correct` are facts without a precondition and may repeat under concurrency.
- Stores.Store.GetClaim: keeps a claim's run and whether it is closed; paths, branches and scope are not modelled, and listings may briefly show two open claims.
- Stores.Store.Meanwhile: other writers use names of their own, never this store's.
- Stores.Store.NewId: mints an event id just before the append; only its freshness matters.
- GitDeliveries: pushing fence and promotion commits does not look for other pending operations and is not part of the one-outstanding-receipt reasoning.
- GitDeliveries: two clones of one endpoint pushing their own journal commits to the same branch are not modelled.
- GitDeliveries: file locks, fsync, directory creation and Git processes are replaced by a lock held throughout, atomic receipt creation and removal, and a commit graph.
- Mirror barriers, the fallback inbox, messages, activity, cursors, health, topology validation, dispatch contracts, the Git task board and the command line are not modelled; they would add easy members or depend on other repositories.
