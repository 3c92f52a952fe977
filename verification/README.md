# Verified model of the observer job broker and its companions

The observer lets agents ask for read-only analysis. A durable job broker keeps every
inquiry in one SQLite store that several dispatcher threads and processes share; around it
are an outbox that feeds a packet store, a lock that serializes the feeding, a projection
that fits a worker's request into a byte budget, paged readers for skill documents, a walk
that decides whether a stored answer is still fresh, receipt checks for released devices,
and a crash-prone command that activates prepared Todo authorities. This project models
them in Dafny and proves what they keep.

## The broker

`BrokerModel` holds the rows of the store, `BrokerSteps` each `BEGIN IMMEDIATE` block as a
function from the store before it to the store after it, and `JobService` the broker as a
class with its tables as fields and one method per transaction, with the loops of the
source; each method is proved equal to its transaction function and to keep the invariant.
Clocks, process liveness, policy decisions, storage refusals and fresh ids are arguments, so
every statement holds for all of them.

`BrokerInvariant` states the inductive invariant in six groups: the tree of frames, waits
and child edges; execution slots and admission; evidence logs and the outbox; checkpoints;
the inquiry cache; and the substance of successful jobs. `BrokerTree` to `BrokerAnswers`
prove that every transaction keeps it, `BrokerRuns` lifts that to every run, and
`BrokerSafety`, `BrokerSelection`, `BrokerSlotLife`, `BrokerWakes` and `BrokerCache` draw the
consequences.

`BrokerReference` says what every transaction does once more, as a relation between the rows
before and after (`StepIs`), without the functions that compute the stores, and proves that
every transaction of every run is one of these; each method of the class ensures it as well.
Its parts are in `BrokerWriteEffects` (the fence, observations, checkpoints, waits),
`BrokerReports`, `BrokerEndings` (cancellation, deadlines, the index), `BrokerClaimEffects`
and `BrokerScans` (slots, gates, the scan), `BrokerAdmissions`, `BrokerWakeEffects` and
`BrokerSettlements` (handed-over results, cleanups, repairs).

`BrokerTheorems` has the main statements for every store reachable from the empty one; read
it first.

## The companions

`OutboxDelivery` is the outbox and the packet store with a crash possible between any two
writes. `ReconcileLock` is the reentrant lock as a state machine over threads of several
processes. `Projection`, `ContextPaging`, `SkillReader`, `Freshness` and `Receipts` are the
loops of the source with proved contracts. `Activation` has the file system as a map of
trees with atomic renames, and a stop as an arbitrary step budget.

## What the code does differently from what one might expect

- A parent can register only one wait in its life: a wait is consumed only once the parent
  is terminal, so the second proposal is always refused (`BrokerTheorems.OneWaitPerParent`).
- Waking does not look at whether a parent is running, and requeues it then too; the fence
  turns its later writes away.
- A claim that retires an exhausted job neither raises its attempt nor ends its frame.
- An expiry overwrites a job that its ancestor's cascade cancelled in the same transaction;
  per transaction the terminal records are nevertheless final.
- Enqueueing a preparation commits the cancellation of superseded ones even if it is then
  refused for storage.
- Activation re-run without naming projects refuses once all markers are written, even if
  it had been stopped before the token store; named explicitly, it publishes.
  `Activation.StopBeforePublishing` reaches that state from any acceptable start.
- Projecting a projected request can forget packets. `Projection.TwiceCanLose` is a concrete
  request, `Projection.TwiceLosesNothingIff` the exact condition: an id list with an empty
  id is taken for malformed and dropped. A request without empty ids loses nothing
  (`Projection.NamedRequestsLoseNothing`).

## Model

| member | source | states |
|---|---|---|
| `BrokerTheorems.StaleWritesChangeNothing` | archive/assistance-v0/as1_jobs.py:2506-2514 | Once an attempt was superseded or stopped running, no write carrying it or an earlier attempt is accepted, or changes any table, after any continuation of the run. |
| `BrokerTheorems.AcceptedWritesInOrder` | archive/assistance-v0/as1_jobs.py:2764-2848 | Of two accepted writes to one job the later carries no smaller attempt, and a strictly larger one when the earlier was a report or a wait. |
| `BrokerTheorems.AttemptsOnlyGrow` | archive/assistance-v0/as1_jobs.py:2489-2496 | Jobs are never lost, attempts never decrease, and an attempt that left running never runs again. |
| `BrokerTheorems.ExpiryEndsEveryDueJob` | archive/assistance-v0/as1_jobs.py:1457-1487 | One expiry transaction ends every due job with one more attempt, as partial exactly if it has findings or evidence, and fences its old attempt, although rows are fetched before the loop and an ancestor's cascade may have cancelled the same job first. |
| `BrokerTheorems.NoOrphanAtAnyDepth` | archive/assistance-v0/as1_jobs.py:2636-2658 | After every transaction, a job below a terminal ancestor at any depth is terminal. |
| `BrokerTheorems.OneWaitPerParent` | archive/assistance-v0/as1_jobs.py:2516-2556 | After one accepted private wait, every later wait of the same parent is refused, in any continuation. |
| `BrokerTheorems.SlotsLeaveThreeWays` | archive/assistance-v0/as1_jobs.py:2408-2412 | From any reachable store, a slot disappears in one transaction only by the cleanup of its own execution, by a claim that found its lease over, no failed cleanup and its owner dead, or by the exact stale-slot reconciliation; otherwise the same attempt and owner still hold it and a failed cleanup stays marked. |
| `BrokerTheorems.SafeSlotStays` | archive/assistance-v0/as1_jobs.py:2408-2412 | Over any run: a slot whose owner is alive at every claim, or whose cleanup failed, stays until its own cleanup or a reconciliation naming exactly its attempt and owner. |
| `BrokerTheorems.ClaimsSelectLeast` | archive/assistance-v0/as1_jobs.py:2413-2497 | A claim starts the least job in dispatch order among all jobs that pass every gate at that instant; if it starts none, no job passes; every other job is untouched, retired because exhausted, or a suspended parent whose wake is ready, requeued. |
| `BrokerTheorems.ChildResultsAppearOnce` | archive/assistance-v0/as1_jobs.py:2596-2623 | At most once: however often wake ran, a parent's log holds at most one result of each child. |
| `BrokerTheorems.WakesFileResults` | archive/assistance-v0/as1_jobs.py:2579-2634 | At least once: a wake that is not rolled back files the result of every finished child it lists under a live parent, wherever it stands in the list; after any continuation the entry is in the log with its own position as its ordinal. |
| `BrokerTheorems.FiledResultsAppear` | archive/assistance-v0/as1_jobs.py:2598-2623 | Every filed child packet is the id of a child-result entry in that parent's log. |
| `BrokerTheorems.LogsAreAppendOnly` | archive/assistance-v0/as1_jobs.py:2764-2772 | An observation keeps its position and content through every continuation, so a child's ordinal is its 1-based position forever. |
| `BrokerTheorems.CheckpointHidesNothingLater` | archive/assistance-v0/as1_jobs.py:2254-2266 | Whatever is observed after the last checkpoint is shown to readers unchanged, at its own position. |
| `BrokerTheorems.RefreshesKeepHints` | archive/assistance-v0/as1_jobs.py:1570-1589 | While an inquiry stays indexed, every hint of any of its generations is a hint of every later one, over any run. |
| `BrokerTheorems.ReportsAreStored` | archive/assistance-v0/as1_jobs.py:2866-2920 | An accepted report of any run stores the answer and findings it names and keeps those it leaves out; before the deadline a completed report with a non-blank answer is committed as completed with its reason; a final one has the next outbox row as its result packet. |
| `BrokerTheorems.FinalReportsStay` | archive/assistance-v0/as1_jobs.py:2866-2920 | A final report stays stored, byte for byte, in every continuation. |
| `BrokerTheorems.ClaimedSlotStays` | archive/assistance-v0/as1_jobs.py:2489-2514 | A claim records its dispatcher as the owner of the slot it gives; while that process is alive at every later claim, and the execution is neither cleaned up nor reconciled, the slot keeps attempt and owner through any continuation, whatever its lease, and as long as the attempt runs its observations are accepted even after the lease. |
| `BrokerTheorems.WakesFileOutcomes` | archive/assistance-v0/as1_jobs.py:2596-2623 | A wake puts the result of every listed finished child, filed for the first time under a live parent, at the end of that parent's log: the child's own ending, its 1-based place, and exactly the child's evidence and result packets, each once, which the packet's outbox row names as its parents; and there it stays in every continuation. |
| `BrokerReference.EveryStepIsExact` | archive/assistance-v0/as1_jobs.py:1457-2951 | From every reachable store each of the seventeen transactions is exactly the relation between the rows before and after that its kind has: when it is accepted, what it stores, and that nothing else changes; stated without the functions that compute the stores. |
| `BrokerReference.WritesAcceptedIff` | archive/assistance-v0/as1_jobs.py:2506-2848 | From every reachable store a worker's write is accepted if and only if its attempt runs under a lease or a living slot owner and its own condition holds: a fitting payload, a faithful checkpoint, a first wait in time and depth, or a report with known status, observed citations and an exact acknowledgement. |
| `BrokerReference.ClaimsBeginEarliest` | archive/assistance-v0/as1_jobs.py:2401-2497 | From every reachable store, after the slots that are over were taken back, a claim begins the earliest job that may begin and none only if none may; its record, frame, slot and owner are exact, every earlier job was passed, requeued or retired, and no later one was touched. |
| `BrokerAdmissions.SubmissionMeans` | archive/assistance-v0/as1_jobs.py:1570-1628 | The reply in both directions: a job is served exactly if it is the indexed generation, access is authorized, and it is live, slotted, unanswered or judged fresh; a new job is admitted exactly if no generation is in the way or a stale one was judged so, and dispatching, skill, hints, storage and room allow; everything else is refused and changes nothing; an admitted job is a new root with the merged hints and the index pointing at it. |
| `BrokerAdmissions.PreparationMeans` | archive/assistance-v0/as1_jobs.py:1641-1747 | Refused after its window or without permission; known work is not admitted again; otherwise the superseded preparation is withdrawn with its tree, and a new automatic root is admitted exactly if it fits. |
| `BrokerReports.ReportIsCommitted` | archive/assistance-v0/as1_jobs.py:2828-2920 | A report is accepted exactly behind the fence and when it may be committed, and then its whole record, its failure count, its acknowledgement or the end of its tree are what status, reason, deadline, failures and substance make them. |
| `BrokerClaimEffects.ClaimMeans` | archive/assistance-v0/as1_jobs.py:2401-2497 | The claim over any sound store: the job that begins, its slot for this attempt and dispatcher, and what every other job became. |
| `BrokerScans.RowMeans` | archive/assistance-v0/as1_jobs.py:2421-2496 | One row of the scan begins exactly if the job may begin in that store; a passed row is untouched, requeued with its wake made durable, or retired with the index trimmed. |
| `BrokerWriteEffects.ObservationIsStored` | archive/assistance-v0/as1_jobs.py:2764-2774 | An observation is accepted exactly behind the fence and within the cap, as the next outbox row and the last entry of log and evidence; nothing that a report would say changes. |
| `BrokerWriteEffects.CheckpointIsStored` | archive/assistance-v0/as1_jobs.py:2776-2826 | A checkpoint is accepted exactly behind the fence, for the own scope, with at most 24 frames of at most 96 KiB that stand for log entries in order; then it replaces the row. |
| `BrokerWriteEffects.ReadersSeeFrames` | archive/assistance-v0/as1_jobs.py:2254-2266 | In every reachable store a reader is shown the saved frame wherever one was saved, and the raw entry everywhere else. |
| `BrokerWriteEffects.WaitIsRegistered` | archive/assistance-v0/as1_jobs.py:2516-2556 | A wait is accepted exactly behind the fence, before the deadline, below the depth limit, within budget and only once; the child is queued in the parent's scope and deadline, one level deeper under the same root, and the parent sleeps. |
| `BrokerEndings.EndTreeMeans` | archive/assistance-v0/as1_jobs.py:2636-2658 | Ending a tree cancels every live job below it with one attempt more, ends their frames and its own, and leaves every other row. |
| `BrokerEndings.CancellationMeans` | archive/assistance-v0/as1_jobs.py:2928-2951 | A cancellation is accepted exactly for a live job of this scope that is neither a child nor a preparation, and ends its tree. |
| `BrokerEndings.ExpiryMeans` | archive/assistance-v0/as1_jobs.py:1457-1487 | Whatever the order of the rows: every due job times out, every other live job below a due one is fenced, and all other records stay. |
| `BrokerEndings.ExpiryMeansForFrames` | archive/assistance-v0/as1_jobs.py:1478-1485 | The frame of a due job with no due job above it ends as expired with the job's evidence; the frame of a job that is neither due nor below a due one stays. |
| `BrokerEndings.TrimMeans` | archive/assistance-v0/as1_jobs.py:2922-2926 | An index entry is dropped exactly if it is an answer worth serving with at least fifty more recent ones. |
| `BrokerWakeEffects.WakeMeans` | archive/assistance-v0/as1_jobs.py:2579-2634 | One wake of a sound store, parent by parent: results filed once at the end of the log, parents requeued, waits marked ready, every new outbox row one of these results, and nothing else. |
| `BrokerSettlements.HandOverIs` | archive/assistance-v0/as1_jobs.py:1503-1531 | One acknowledged wake: handed over exactly when it was released and neither side holds a slot; the child's frame row goes and the parent's frame ends as its job did, or, late, runs on. |
| `BrokerSettlements.DropIs` | archive/assistance-v0/as1_jobs.py:1532-1536 | An unread result is retired exactly when job and frame of its parent ended, nobody acknowledged it, and neither side holds a slot. |
| `BrokerSettlements.CleanupIs` | archive/assistance-v0/as1_jobs.py:3384-3407 | A cleanup happens once: it removes its own slot and arms the child of a sleeping parent, or keeps and marks the slot. |
| `BrokerSettlements.ReconciliationIs` | archive/assistance-v0/as1_jobs.py:889-952 | The operator's reconciliation is accepted exactly for an ended job's failed slot of this attempt and this dead owner with a proof, and removes that slot alone. |
| `BrokerSettlements.FailuresForgotten` | archive/assistance-v0/as1_jobs.py:2201-2236 | An inquiry is forgotten exactly if its job was named with its reason, ended without an answer worth serving, holds no slot and was delivered. |
| `BrokerRuns.StepKeepsInvariant` | archive/assistance-v0/as1_jobs.py:2401-2497 | Each of the seventeen kinds of transaction keeps the whole inductive invariant (frame tree, slots, logs, checkpoints, cache, substance) and only moves jobs forward. |
| `BrokerRuns.ReachableInvariant` | archive/assistance-v0/as1_jobs.py:1541-1628 | Every store reached from the empty one by any interleaving of transactions satisfies the invariant. |
| `BrokerSafety.TerminalIsFinal` | archive/assistance-v0/as1_jobs.py:1457-1487 | A terminal record is identical in every later committed state. |
| `BrokerSafety.ReachableBounds` | archive/assistance-v0/as1_jobs.py:2408-2497 | In every reachable store: at most two slots, at most one for automatic trees, at most six public jobs, at most fifty indexed answers; a slot's attempt is at most its job's and equal while it runs; at most one live preparation; no completed or partial job without an answer, finding or evidence. |
| `BrokerSafety.ReachableProvenance` | archive/assistance-v0/as1_jobs.py:2764-2772 | A job's observation ids equal its evidence packets in order, each has an outbox row of that job, and every finding cites only those ids. |
| `BrokerSafety.OverlayRefinesLog` | archive/assistance-v0/as1_jobs.py:2254-2266 | In every reachable store the public observations have the length, order and ids of the raw log, and each is the raw one or its exact over-cap omission marker with the saved call. |
| `BrokerSafety.OneLiveGeneration` | archive/assistance-v0/as1_jobs.py:1570-1626 | Two live jobs of one inquiry identity are the same job, and it is the indexed one. |
| `BrokerSafety.ReachableOutboxOrder` | archive/assistance-v0/as1_jobs.py:2749-2761 | Every outbox row belongs to a job and names only earlier rows as its parents. |
| `BrokerSafety.LastWriteFences` | archive/assistance-v0/as1_jobs.py:2828-2920 | An accepted report or wait leaves its own attempt fenced. |
| `BrokerSafety.CancelFences` | archive/assistance-v0/as1_jobs.py:2928-2951 | An accepted cancellation ends the job as cancelled and fences the attempt it found. |
| `BrokerSafety.EndingFencesDescendants` | archive/assistance-v0/as1_jobs.py:2636-2658 | Ending a job cancels and fences every live job in the recursive closure below it, at any depth. |
| `BrokerSafety.SecondWaitRefused` | archive/assistance-v0/assistance/frames.py:254-282 | A parent that has a wait, in any state, cannot register another one. |
| `BrokerWakes.WakeAllFiles` | archive/assistance-v0/as1_jobs.py:2585-2631 | The same for one wake: what it does for other waits, also of the same parent, leaves this one to be delivered. |
| `BrokerSelection.ClaimIsCorrectSelection` | archive/assistance-v0/as1_jobs.py:2413-2497 | The selection contract of claim over every store with a sound frame tree, with the rows in any order the query may return. |
| `BrokerSelection.BeforeIsTotalOrder` | archive/assistance-v0/as1_jobs.py:2413-2416 | The dispatch order (public before automatic, then update time, then id) is a strict total order on jobs. |
| `BrokerSlotLife.SlotLeavesOnlyBy` | archive/assistance-v0/as1_jobs.py:3384-3397 | The per-transaction form of the slot guarantee, for all seventeen kinds of transaction. |
| `BrokerSlotLife.SlotStays` | archive/assistance-v0/as1_jobs.py:889-952 | Its run form, by induction over the transactions. |
| `BrokerCache.TrimDropsOnlyOldAnswers` | archive/assistance-v0/as1_jobs.py:2922-2926 | Trimming never evicts a live or unanswered entry; a dropped answer has at least fifty newer ones; with at most fifty answers nothing is dropped. |
| `BrokerCache.TrimKeepsNewest` | archive/assistance-v0/as1_jobs.py:2922-2926 | Every kept answer is newer than every dropped one. |
| `BrokerCache.RefreshHintsExact` | archive/assistance-v0/as1_jobs.py:1588-1589 | The hints of a refresh are exactly those of the previous generation and of the request, each once. |
| `BrokerCache.HintsOnlyGrow` | archive/assistance-v0/as1_jobs.py:1570-1626 | Hints of an indexed inquiry only grow along any run from any state that satisfies the invariant. |
| `BrokerCalm.TrimBounds` | archive/assistance-v0/as1_jobs.py:2922-2926 | After trimming at most fifty answers are indexed, whatever was there before. |
| `JobServiceModule.JobService.DescendantRows` | archive/assistance-v0/as1_jobs.py:2638-2641 | The worklist returns each row of the recursive child closure exactly once. |
| `JobServiceModule.JobService.CancelDescendants` | archive/assistance-v0/as1_jobs.py:2636-2658 | The loop over those rows commits the cascade for the whole closure at once: one cancelled attempt per live job, frames ended once. |
| `JobServiceModule.JobService.EndTree` | archive/assistance-v0/as1_jobs.py:1478-1485 | Ends a record, everything below it and its own frame, in this order. |
| `JobServiceModule.JobService.TrimIndex` | archive/assistance-v0/as1_jobs.py:2922-2926 | Sorting the answers and deleting those after the fiftieth leaves exactly the entries that the trimming rule keeps. |
| `JobServiceModule.JobService.Heartbeat` | archive/assistance-v0/as1_jobs.py:2499-2504 | Renews the lease of the slot with this attempt, and of the job only while it runs under this attempt. |
| `JobServiceModule.JobService.Observe` | archive/assistance-v0/as1_jobs.py:2764-2774 | Appends one packet to outbox, evidence and log behind the fence, or changes nothing; keeps the invariant. |
| `JobServiceModule.JobService.CheckFrames` | archive/assistance-v0/as1_jobs.py:2784-2817 | The sequential frame-by-frame check accepts exactly the frames that are unique, in log order, faithful to the raw log and within the byte caps. |
| `JobServiceModule.JobService.Checkpoint` | archive/assistance-v0/as1_jobs.py:2776-2826 | Replaces the job's checkpoint behind the fence when scope, frames and storage allow, or changes nothing. |
| `JobServiceModule.JobService.PrivateWait` | archive/assistance-v0/as1_jobs.py:2516-2556 | Registers one child and its wait and yields the parent in one transaction, only from a running parent before its deadline. |
| `JobServiceModule.JobService.Submit` | archive/assistance-v0/as1_jobs.py:1541-1628 | Serves the identity's current generation, refuses, or admits a new one with merged hints and the index pointing at it. |
| `JobServiceModule.JobService.Prepare` | archive/assistance-v0/as1_jobs.py:1641-1747 | Admits one automatic preparation after cancelling exactly the superseded live ones; those cancellations stay even when storage then refuses. |
| `JobServiceModule.JobService.CancelRows` | archive/assistance-v0/as1_jobs.py:1706-1729 | Cancels the superseded preparations row by row. |
| `JobServiceModule.JobService.ReclaimSlots` | archive/assistance-v0/as1_jobs.py:2408-2412 | Removes exactly the slots with an expired lease, no failed cleanup and no live owner. |
| `JobServiceModule.JobService.RequeueJob` | archive/assistance-v0/as1_jobs.py:2429-2441 | Requeues a suspended parent whose wake is ready. |
| `JobServiceModule.JobService.RetireJob` | archive/assistance-v0/as1_jobs.py:2477-2483 | Retires an exhausted job without touching its attempt or its frame, and trims the index. |
| `JobServiceModule.JobService.ScanJob` | archive/assistance-v0/as1_jobs.py:2421-2496 | One row of the claim scan, gate by gate. |
| `JobServiceModule.JobService.Claim` | archive/assistance-v0/as1_jobs.py:2401-2497 | The scan over the sorted rows stops at the first job it starts; the result is the specified claim for a true dispatch order, and the invariant holds after it. |
| `JobServiceModule.JobService.Finish` | archive/assistance-v0/as1_jobs.py:2828-2920 | Commits one attempt's report with its forced or downgraded status, acknowledgement, result packet and cascade, or leaves the store untouched. |
| `JobServiceModule.JobService.WriteReport` | archive/assistance-v0/as1_jobs.py:2889-2919 | Writes the report by its three cases: a yield, a terminal report that acknowledged its child, or the end of the tree. |
| `JobServiceModule.JobService.Cancel` | archive/assistance-v0/as1_jobs.py:2928-2951 | Cancels a live public job of exactly this scope and everything below it; private jobs are refused. |
| `JobServiceModule.JobService.CancelPreparation` | archive/assistance-v0/as1_jobs.py:1856-1894 | Cancels a live preparation of exactly this scope and everything below it. |
| `JobServiceModule.JobService.ExpireDeadlines` | archive/assistance-v0/as1_jobs.py:1457-1487 | The loop over the rows fetched before it equals the expiry of all due jobs. |
| `JobServiceModule.JobService.WakeParent` | archive/assistance-v0/as1_jobs.py:2586-2630 | Appends the finished child's result once and requeues a parent that is not terminal. |
| `JobServiceModule.JobService.AppendChildResult` | archive/assistance-v0/as1_jobs.py:2596-2620 | Adds the outbox row, the child-packet key and the log entry with its ordinal together, unless the result was filed before. |
| `JobServiceModule.JobService.WakeReadyParents` | archive/assistance-v0/as1_jobs.py:2579-2634 | Runs over every wait that is not retired, or rolls all of it back; every finished child of a live parent whose result was not handed over is filed. |
| `JobServiceModule.JobService.ConsumeWake` | archive/assistance-v0/as1_jobs.py:1503-1531 | Hands one acknowledged wake over only when neither parent nor child holds a slot, and ends a terminal parent's frame. |
| `JobServiceModule.JobService.ConsumePendingAcks` | archive/assistance-v0/as1_jobs.py:1497-1538 | The two loops over acknowledged and unread waits, in one transaction. |
| `JobServiceModule.JobService.Cleanup` | archive/assistance-v0/as1_jobs.py:3384-3407 | The end of one execution: the slot removed and the waiting frame's child armed, or the slot kept and marked. |
| `JobServiceModule.JobService.ReconcileStaleSlot` | archive/assistance-v0/as1_jobs.py:889-952 | Removes one slot only for a terminal job, the exact attempt and dead owner, a failed cleanup and a proved release. |
| `JobServiceModule.JobService.ReleaseFailed` | archive/assistance-v0/as1_jobs.py:2201-2236 | Forgets exactly the named, settled, terminal answers that have the expected reason and nothing to serve. |
| `BrokerTables.AnswersNewestFirst` | archive/assistance-v0/as1_jobs.py:2923-2924 | The answered identities, each once, newest first. |
| `BrokerTables.DispatchRows` | archive/assistance-v0/as1_jobs.py:2413-2416 | Every job once, in dispatch order. |
| `BrokerTables.DueList` | archive/assistance-v0/as1_jobs.py:1464-1468 | Every due job once, with its record at the start of the transaction. |
| `BrokerTables.StaleRows` | archive/assistance-v0/as1_jobs.py:1706-1709 | Exactly the live automatic roots of other work. |
| `BrokerTables.CheckedMeansAccepted` | archive/assistance-v0/as1_jobs.py:2784-2817 | The ordered scan of checkpoint frames and the acceptance condition by positions are equivalent. |
| `BrokerTables.TrimmedIsSuffix` | archive/assistance-v0/as1_jobs.py:2924-2926 | What trimming removes is exactly the sorted answers after the first fifty. |
| `OutboxDelivery.RunDelivers` | archive/assistance-v0/as1_jobs.py:2957-2964 | Over any run of insertions, puts, marks and crashes, the materialized rows are a prefix in insertion order that only grows, and the store holds that prefix or one row more. |
| `OutboxDelivery.UninterruptedDeliversAll` | archive/assistance-v0/as1_jobs.py:2957-2964 | A reconcile that was not stopped and has nothing left delivered every row that existed when it began, and the next one lists none of them. |
| `OutboxDelivery.BrokerRowsAreInsertable` | archive/assistance-v0/as1_jobs.py:2603-2619 | Every row the broker commits in any run meets what delivery expects of an insertion. |
| `OutboxDelivery.Delivery.Reconcile` | archive/assistance-v0/as1_jobs.py:2957-2964 | The loop, stopped after any number of writes, keeps the delivery invariant; with enough steps it delivers everything. |
| `ReconcileLock.MutualExclusion` | archive/assistance-v0/as1_jobs.py:43-81 | In every interleaving of threads and processes, including deaths, at most one thread anywhere is inside the protected region. |
| `ReconcileLock.NestedEntryNeverBlocks` | archive/assistance-v0/as1_jobs.py:60-68 | A thread inside can always enter again at once, without touching the file lock or any other thread. |
| `ReconcileLock.DepthReturns` | archive/assistance-v0/as1_jobs.py:60-68 | However others interleave, matched nested entries and exits return the depth to its value. |
| `ReconcileLock.FileLockReleasedOnlyOutermost` | archive/assistance-v0/as1_jobs.py:70-81 | The file lock is given up only at the outermost exit, normal or by exception, or by the process's death. |
| `ReconcileLock.OutsideHoldsNothing` | archive/assistance-v0/as1_jobs.py:75-81 | A thread that is outside again holds neither lock and has depth zero. |
| `ReconcileLock.FileLockHolderIsElsewhere` | archive/assistance-v0/as1_jobs.py:53-56 | A thread at the file lock only ever waits for another process. |
| `ReconcileLock.EntersWhenFree` | archive/assistance-v0/as1_jobs.py:43-68 | When nobody holds the file lock and no other thread of the process is past its start, three steps lead a thread inside, holding both locks. |
| `ReconcileLock.LeavesBothFree` | archive/assistance-v0/as1_jobs.py:53-81 | From the outermost level three steps lead outside with both locks free, and a failed opening gives the process lock back. |
| `Activation.Converge` | scripts/migrate_todo_authorities.py:740-916 | However often activation was stopped, after whatever step and with whatever selection and stamp, activating everything explicitly with a fresh stamp completes and leaves the targets, markers and token store of one uninterrupted activation. |
| `Activation.Installer.Activate` | scripts/migrate_todo_authorities.py:740-916 | Each refusal in both directions: unprepared candidates, unsound markers, unknown or no pending projects, then the first chosen authority over an unmarked tree that must stay (same identity and not the candidate, or foreign where a new authority was to go), a missing switch, a taken archive. Refusals before the writes change nothing. On success every chosen unmarked authority has its candidate installed and marked, what stood there in this stamp's archive, and write bits dropped unless new; the token store holds exactly the prepared rows of marked authorities in order and the earlier runtime records. Stopped anywhere, all is underway and unchosen authorities are untouched; unhindered it completes in exactly the steps its operations take and one more. |
| `Activation.Installer.Apply` | scripts/migrate_todo_authorities.py:857-916 | The writes of an accepted activation: every selected authority installed and marked exactly, unselected ones untouched, and then the token store, as far as the steps allow. |
| `Activation.Installer.Check` | scripts/migrate_todo_authorities.py:740-795 | What is read before anything is written, with every refusal in both directions and the first conflict in manifest order; otherwise the chosen unmarked authorities in manifest order. |
| `Activation.Installer.InstallAll` | scripts/migrate_todo_authorities.py:859-903 | The loop over the operations stops exactly where its steps run out, or at a taken staging path; the others are untouched. |
| `Activation.Installer.SwapIn` | scripts/migrate_todo_authorities.py:872-877 | The previous tree goes to the archive before the copy is renamed into place; stopped between the two, the authority is archived and still underway. |
| `Activation.Installer.InstallOne` | scripts/migrate_todo_authorities.py:863-895 | Stage, archive, rename, drop write bits, mark, in exactly as many steps as its place needs: after each of them the authority is untouched, archived or installed, and marked only when installed; no other authority is touched. |
| `Activation.Installer.AdoptOne` | scripts/migrate_todo_authorities.py:878-895 | What is left for a candidate that an earlier, stopped activation installed. |
| `Activation.Installer.Preflight` | scripts/migrate_todo_authorities.py:748-795 | Refuses exactly if a selected authority must stay as it is, for the reason of the first one, and otherwise lists exactly the selected unmarked ones in manifest order. |
| `Activation.Installer.ReadMarkers` | scripts/migrate_todo_authorities.py:586-609 | The markers are sound exactly if each stands over an installed tree of its identity; then they are the active set. |
| `Activation.Installer.Publish` | scripts/migrate_todo_authorities.py:904-909 | The token store becomes the prepared rows of the authorities marked now, each once and in order, with the earlier runtime records. |
| `Activation.OriginalPreserved` | scripts/migrate_todo_authorities.py:864-877 | In every state that stopped activations can leave, the original native tree is at the target or in exactly one new archive. |
| `Activation.MarkedMeansInstalled` | scripts/migrate_todo_authorities.py:877-895 | A marker stands only over the installed candidate, or over the state it was found on. |
| `Activation.UnderwayAcceptable` | scripts/migrate_todo_authorities.py:777-795 | Every such state passes the preflight of the next activation. |
| `Activation.DefaultRefusedIff` | scripts/migrate_todo_authorities.py:740-747 | The default selection is empty exactly when every marker is written. |
| `Activation.StopBeforePublishing` | scripts/migrate_todo_authorities.py:740-916 | From any acceptable places and any token store: an activation of everything that stops just before the token store leaves every marker written and the store unchanged; the same command without a selection is then refused and publishes nothing, and with everything selected it publishes. |
| `Activation.AttemptAll` | scripts/migrate_todo_authorities.py:748-916 | Any number of activations, each with any selection and stopped anywhere, from any places whatever: an unmarked tree of the same identity that is not the candidate, an unmarked foreign tree where a new authority was to go, and every place with a wrong candidate or an unsound marker equal their originals; all others are underway, and the token store keeps its attempts and children. |
| `Projection.Project` | archive/assistance-v0/as1_jobs.py:3013-3112 | A request is returned exactly unless a required entry, the base, or every choice is too large; it is the one with the fewest first optional entries left out that makes it small enough: each other entry shown whole with its kept call or as a marker, the names of those left out after the usable earlier ones. |
| `Projection.RemainingIs` | archive/assistance-v0/as1_jobs.py:3042-3112 | Evicting from the front and choosing position by position are the same: entry by entry what stays, how it is shown, and which names are listed. |
| `Projection.RequestBytes` | archive/assistance-v0/as1_jobs.py:3092-3104 | The size of a request: the base and two empty lists, and for each element its own size and a separator before all but the first. |
| `Projection.Evict` | archive/assistance-v0/as1_jobs.py:3096-3112 | Popping the first removable entry until the request fits finds the first fitting candidate, or none of them fits. |
| `Projection.Normalize` | archive/assistance-v0/as1_jobs.py:3042-3078 | Normalizes every entry and collects the protected ids, or stops exactly at an oversize mandatory entry. |
| `Projection.ProjectedRequest` | archive/assistance-v0/as1_jobs.py:3013-3112 | A returned request is within the cap, an order-preserving subsequence of the normalized input, holds every mandatory entry whole, and keeps every identity as retained or omitted. |
| `Projection.EvictNext` | archive/assistance-v0/as1_jobs.py:3100-3112 | Removing the first removable entry that is left is exactly one more eviction of the input, and there is one exactly while fewer than all were evicted. |
| `Projection.EvictionSplits` | archive/assistance-v0/as1_jobs.py:3096-3112 | Retained and evicted entries are a partition of the input; mandatory ones are all retained and only optional ones evicted. |
| `Projection.EvictionKeepsOrder` | archive/assistance-v0/as1_jobs.py:3096-3112 | What is retained is a subsequence of the input. |
| `Projection.EvictionShrinks` | archive/assistance-v0/as1_jobs.py:3100-3112 | Leaving out one more entry, and listing its id, never makes the request larger. |
| `Projection.NothingFitsIff` | archive/assistance-v0/as1_jobs.py:3096-3112 | No eviction count fits exactly when the mandatory-only request does not. |
| `Projection.AllEvictedLeavesMandatory` | archive/assistance-v0/as1_jobs.py:3107-3112 | With every removable entry evicted, only mandatory ones are left. |
| `Projection.ProjectionIdentities` | archive/assistance-v0/as1_jobs.py:3080-3112 | A projection names exactly the identities of its input and of the usable earlier omissions. |
| `Projection.TwiceLosesNothingIff` | archive/assistance-v0/as1_jobs.py:3082-3090 | Projecting a projection loses no identity exactly if its omitted list holds no empty id, or every omitted id is also retained. |
| `Projection.NamedRequestsLoseNothing` | archive/assistance-v0/as1_jobs.py:3082-3112 | A request without an empty id can be projected twice: whatever both passes evict, every packet identity of the request is still named. |
| `Projection.TwiceCanLose` | archive/assistance-v0/as1_jobs.py:3082-3104 | A concrete request whose second projection forgets a packet, because an entry with an empty id was evicted. |
| `Freshness.Evaluate` | archive/assistance-v0/as1_surface_v0.py:379-477 | The walk ends and has seen exactly what the answer rests on; the reported changes are exactly the reasons to refresh (what one of these packets reports, a missing or unresolved result, a missing selection proof, or nothing checked), the checks exactly what they prove; the verdict is fresh exactly if there is no such reason, and then every packet resolved and every read of a command packet is valid and equals the current file digest. |
| `Freshness.Walk.Visit` | archive/assistance-v0/as1_surface_v0.py:379-392 | Depth first with a seen set over any graph, cyclic or shared: all it sees is reachable, every newly seen packet has all its successors seen, and exactly what the newly seen packets report and prove is added. |
| `Freshness.Walk.Judge` | archive/assistance-v0/as1_surface_v0.py:390-433 | What one resolved packet contributes to the changes and checks. |
| `Freshness.Walk.CheckReads` | archive/assistance-v0/as1_surface_v0.py:393-413 | Every recorded read is checked, and exactly the broken ones are reported. |
| `Freshness.Walk.VisitAll` | archive/assistance-v0/as1_surface_v0.py:387-441 | Parents, nested packets or roots in turn: all of them are seen, everything newly seen is reachable from them, and exactly what it reports and proves is added. |
| `Freshness.SeenIsReachable` | archive/assistance-v0/as1_surface_v0.py:379-392 | A closed set that holds the roots and only reachable packets is exactly the reachable set. |
| `Freshness.SilentMeansRevalidated` | archive/assistance-v0/as1_surface_v0.py:393-413 | A packet that reports nothing resolved, and every recorded read of a command packet is valid and equals the current file digest. |
| `Freshness.ChangesAre` | archive/assistance-v0/as1_surface_v0.py:390-433 | What one packet adds to the changes, both ways: an unresolved reference, a recorded read that is invalid or differs from the file, or an omission of a packet that is not exempt. |
| `Freshness.ChecksAre` | archive/assistance-v0/as1_surface_v0.py:393-433 | What one packet adds to the checks, both ways: each recorded read, or each declared source and dependency. |
| `ContextPaging.Boundaries` | archive/assistance-v0/skill_context.py:133-138 | Every document is split into blocks of at most sixty lines that end exactly at the end, before a heading, or when full. |
| `ContextPaging.BlocksAreTheLines` | archive/assistance-v0/skill_context.py:139-144 | The blocks put together are the document's lines, each once. |
| `ContextPaging.SplitIsUnique` | archive/assistance-v0/skill_context.py:133-138 | There is only one such split of a document. |
| `ContextPaging.Expand` | archive/assistance-v0/skill_context.py:288-310 | The relationships of the seeds are followed first and then those of what they reached, in that order: exactly those that lead to a usable key nothing before them reached, until sixteen or, for broad queries, sixty-four keys are visited; with room to spare nothing usable at those two levels is left out. |
| `ContextPaging.ExpandLevel` | archive/assistance-v0/skill_context.py:293-310 | One level follows exactly the relationships of the frontier that are usable, new and within the cap, key by key in order. |
| `ContextPaging.ExpandFrom` | archive/assistance-v0/skill_context.py:296-302 | The same for the relationships of one key. |
| `ContextPaging.Deduplicate` | archive/assistance-v0/skill_context.py:311-330 | One section for each distinct selected text, no selected text lost, each the best section of the whole corpus with that text, and canonical whenever the corpus has a canonical one. |
| `ContextPaging.Winner` | archive/assistance-v0/skill_context.py:320-322 | The first section of the sorted duplicates. |
| `ContextPaging.Pack` | archive/assistance-v0/skill_context.py:450-462 | Direct and indexed routes: the evidence is exactly the selected sections from the offset to the consumed position, as many whole ones as fit, or the first one cut when not even it fits. |
| `ContextPaging.FillPacket` | archive/assistance-v0/skill_context.py:400-416 | One analysis packet holds consecutive sections, whole but for a first one that is too large, and ends only at the end, at sixty-four, or where the next does not fit. |
| `ContextPaging.Cite` | archive/assistance-v0/skill_context.py:445-447 | Adds exactly the cited sections in order, up to eight in all. |
| `ContextPaging.Summarize` | archive/assistance-v0/skill_context.py:398-449 | Up to four packets: each range is one full packet, its summary succeeded exactly if the answer cites something and only its sections, the successful ranges tile the selection from the offset to the consumed position, a failed one is handed back; the evidence is the first eight cited sections in order, or the first two of a first packet that failed; another packet is only begun while what was gathered leaves a kibibyte, and fewer than four mean a failure, the end, or no room. |
| `ContextPaging.Context` | archive/assistance-v0/skill_context.py:392-496 | One page: what either route gathers, less the smallest number of things (relationships, then warnings, summaries and evidence from the back) that makes it fit, with the cursor at the first section no longer covered; evidence or surviving summaries still cover the selection from the offset to the consumed position, the cursor is absent exactly at the end, and a page over budget is an empty one. |
| `ContextPaging.FittingGivesUp` | archive/assistance-v0/skill_context.py:482-496 | Trimming one thing after another is giving up, all at once, exactly as many things as needed. |
| `ContextPaging.QuotesNext` | archive/assistance-v0/skill_context.py:445-447 | After a successful packet the evidence is again the first eight of all sections cited so far. |
| `ContextPaging.ChainedPagesAreTheSelection` | archive/assistance-v0/skill_context.py:473-496 | Evidence lists over consecutive intervals from the start, put together, are one list: the induction behind following cursors. |
| `ContextPaging.FollowPages` | archive/assistance-v0/skill_context.py:371-496 | A reader that begins without a cursor and follows each page's cursor, with any budget, encoder and backend for every page: the evidence put together is the selection up to the last cursor, each section once and in order; on the machine route the successful ranges of all pages follow each other up to there; and without a cursor that is everything. |
| `SkillReader.Read` | archive/assistance-v0/skills.py:331-355 | Each outcome of one read, both directions: the exact page of as many whole lines as fit with its continuation, or the exact condition of each error. |
| `SkillReader.FollowReadsLines` | archive/assistance-v0/skills.py:340-355 | Following continuations reads exactly the requested lines, or everything before the one line that cannot fit a page of its own. |
| `SkillReader.FollowSucceeds` | archive/assistance-v0/skills.py:340-355 | If every line fits on its own, following never gets stuck. |
| `SkillReader.ReadAll` | archive/assistance-v0/skills.py:340-355 | A reader that keeps asking for the continuation gets that reading, and ends. |
| `Receipts.MatchReceipts` | archive/assistance-v0/observer_analysis.py:616-637 | Idle release accepts exactly if there are as many receipts as slots, all clean, no two slots have the same owner, process and set of devices, and every slot is named by a receipt; then the receipts are a permutation of the slots. |
| `Receipts.Pigeonhole` | archive/assistance-v0/observer_analysis.py:616-637 | Equal length, membership and no repeats force a permutation and distinct slots. |
| `Receipts.ExpectedKeys` | archive/assistance-v0/as1_jobs.py:1089-1104 | The broker's own match expects nothing from a slot list with a repeated key. |
| `Receipts.VerifyScope` | archive/assistance-v0/observer_analysis.py:842-871 | Archived verification accepts exactly if every receipt is clean, of a named process, for one to four distinct allowed devices, no two share a device or a process start, and every allowed device has one. |
| `Receipts.MatchingMeans` | archive/assistance-v0/observer_analysis.py:616-637 | As many receipts as slots, distinct slots and a receipt for each is the same as distinct keys and a permutation. |
| `Receipts.ScopedExtends` | archive/assistance-v0/observer_analysis.py:846-866 | One receipt's checks against what was seen so far are exactly what the longer list needs. |

## Left out

- JobServiceModule.JobService.Prepare: for an existing preparation the reply names some job of that work; the source's table has exactly one.
- JobServiceModule.JobService.PrivateWait: the turn reservation and the frame budgets are one boolean, because they only decide whether the registration raises.
- JobServiceModule.JobService.Checkpoint: masking of payloads is not modelled; frames are compared as they are stored.
- JobServiceModule.JobService.Finish: unresolved questions, failure texts and protocol feedback are not modelled; no guard reads them. One clock reading serves the lease and the deadline, and one later reading all rows and the cascade; the source reads the clock again for each, so a lease that is alive at the fence while the deadline passes an instant later is not told apart.
- JobServiceModule.JobService.Submit: retries by request id are not modelled; they return an earlier reply and change nothing.
- JobServiceModule.JobService.ReconcileStaleSlot: the release proof and the policy's veto are one boolean; the audit row is left out.
- Activation.Installer.Activate: journals, the token baseline backup, file modes and symlink checks are left out; the write bits of one authority's legacy files fall in one step; the earlier manifest and credential checks are one condition on candidates.
- ContextPaging.Expand: the sections that expanded keys add to the selection, with their limit of sixteen, are not modelled.
- ContextPaging.Deduplicate: the merged metadata of duplicates and the final sort are left out; the sort only permutes the result.
- ContextPaging.Context: revalidation of files after the backend's answer raises or changes nothing, and is left out; progress under tiny budgets is not claimed, because a page may consume nothing.
- Freshness.Evaluate: what the skill-selection tail adds is a parameter, and dependency checks of non-command packets are the packet store's omissions.
- Cancelling an inquiry by its question: it looks the job up by identity and then makes the transition of `Cancel`, so it is no separate event.
- Table migrations when the service starts, and the work around an execution (sessions, turn accounting, release receipts), which touches none of the modelled tables.
- Waits with several children: the broker's only call registers one child.
- Packet retention and garbage collection after a delivery; the packet store only grows here.
- Liveness: a death between a wait and its parent's slot release leaves the child unarmed, so no progress of parents or children is claimed.
- A byte-storage invariant: the cap is not checked on every record update.
- Ranking, search hits and routes: hits are an arbitrary list, the route an arbitrary input.
- Command line, server startup, installers, policy and resource controllers, and the forwarding of owner requests.
- SQLite, file descriptors, `flock` and `/proc` themselves: transactions and renames are atomic, and a dead process drops its locks.
