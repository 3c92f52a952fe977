/** The broker's transactions once more, as relations between the rows before and after, and the
    proof that every transaction of every run is one of them. Nothing here is stated with the
    functions that compute the stores. */
module BrokerReference {
  import opened Prelude
  import opened BrokerModel
  import opened BrokerSteps
  import opened BrokerInvariant
  import opened BrokerTree
  import opened BrokerCalm
  import opened BrokerRuns
  import opened BrokerSafety
  import opened BrokerSelection
  import opened BrokerWriteEffects
  import opened BrokerEndings
  import opened BrokerReports
  import opened BrokerClaimEffects
  import opened BrokerScans
  import opened BrokerAdmissions
  import opened BrokerWakeEffects
  import opened BrokerSettlements

  ghost predicate SubmittedAs(cfg: Config, s: Store, t: Store, r: Request, now: Time) {
    if MayRenew(s, r) && HasRoom(cfg, s, r) then RootAdded(s, t, r, now) && HintsMerged(s, r, t.jobs[r.id].hints)
    else t == s
  }

  /** Slots are taken back, and then the rows are scanned in order until one begins. */
  ghost predicate ClaimedAs(cfg: Config, s: Store, t: Store, rows: seq<JobId>, d: Dispatch) {
    exists stores, n :: ScannedBy(cfg, stores, rows, d, n) && TakenBack(s, stores[0], d) && t == stores[|stores| - 1]
  }

  ghost predicate ReportedAs(cfg: Config, s: Store, t: Store, id: JobId, r: Report, now: Time, late: Time) {
    && id in s.jobs && id in s.frames && id in t.jobs
    && (exists m :: Counted(s, m, id, r) && Written(m, t, id, t.jobs[id], r, late))
    && RecordFor(cfg, s.jobs[id], t.jobs[id], s.frames[id].failures, r, now, late, |s.outbox|)
  }

  ghost predicate CancelledAs(s: Store, t: Store, id: JobId, scope: Scope, now: Time) {
    if id in s.jobs && !s.jobs[id].status.Terminal() && s.jobs[id].scope == scope && id !in s.edges
       && id !in s.preparations
    then EndedAndTrimmed(s, t, id, Withdrawn(s.jobs[id], s.jobs[id].reason, now),
      Outcome(EndedAs(Cancelled), [], None), now)
    else t == s
  }

  ghost predicate PreparationCancelledAs(s: Store, t: Store, id: JobId, scope: Scope, now: Time) {
    if id in s.preparations && id in s.jobs && !s.jobs[id].status.Terminal() && s.jobs[id].scope == scope
    then TreeEnded(s, t, id, Withdrawn(s.jobs[id], Other("operator_cancelled"), now),
                   Outcome(EndedAs(Cancelled), [], None), now)
    else t == s
  }

  /** Each due job times out in turn; and whatever the order, its record is the same. */
  ghost predicate ExpiredAs(s: Store, t: Store, due: seq<(JobId, Job)>, now: Time) {
    && (exists stores :: ExpiredBy(stores, due, now) && stores[0] == s && stores[|due|] == t)
    && forall x :: x in s.jobs ==> RecordAfterExpiry(s, t, x, now)
  }

  ghost predicate RecordAfterExpiry(s: Store, t: Store, x: JobId, now: Time)
    requires x in s.jobs
  {
    x in t.jobs
    && if PastDeadline(s.jobs[x], now) then t.jobs[x] == TimedOut(s.jobs[x], now)
       else if !s.jobs[x].status.Terminal() && DueAbove(s, x, now) then FencedBelow(s.jobs[x], t.jobs[x], now)
       else t.jobs[x] == s.jobs[x]
  }

  ghost predicate WokenAs(s: Store, t: Store, waits: seq<(JobId, int)>, now: Time, fits: bool) {
    if fits then
      OnlyFiles(s, t) && RowsAreResults(s, t) && forall p :: ParentAfter(s, t, p, (p, 1) in waits, now)
    else t == s
  }

  ghost predicate SettledAs(s: Store, t: Store, acked: seq<(JobId, int)>, unread: seq<(JobId, int)>, now: Time) {
    exists stores :: SettledBy(stores, acked, unread, now) && stores[0] == s && stores[|acked| + |unread|] == t
  }

  /** What each transaction may do. */
  ghost predicate StepIs(cfg: Config, s: Store, e: Event, t: Store) {
    match e
    case Submitted(r, now) => SubmittedAs(cfg, s, t, r, now)
    case Prepared(id, scope, work, deadline, now, permitted, fits, stale) =>
      exists reply :: PreparedAs(s, t, reply, id, scope, work, deadline, now, permitted, fits)
    case Claimed(rows, d) => ClaimedAs(cfg, s, t, rows, d)
    case Beaten(id, attempt, now) => Renewed(cfg, s, t, id, attempt, now)
    case Observed(id, attempt, text, now, alive, fits) =>
      if HoldsFence(s, id, attempt, now, alive) && fits then ObservationStored(cfg, s, t, id, text, now) else t == s
    case Checkpointed(id, attempt, frames, scope, now, alive, fits) =>
      if HoldsFence(s, id, attempt, now, alive) && MaySave(cfg, s.jobs[id], frames, scope) && fits
      then CheckpointStored(cfg, s, t, id, attempt, frames, now) else t == s
    case Waited(id, attempt, child, now, alive, room) =>
      if HoldsFence(s, id, attempt, now, alive) && MayAskOnce(s, id, now, room)
      then WaitRegistered(s, t, id, child, now) else t == s
    case Finished(id, attempt, report, now, late, alive, fits) =>
      if HoldsFence(s, id, attempt, now, alive) && id in s.frames && MayReport(s, id, report, now, fits)
      then ReportedAs(cfg, s, t, id, report, now, late) else t == s
    case CancelledBy(id, scope, now) => CancelledAs(s, t, id, scope, now)
    case PreparationCancelled(id, scope, now) => PreparationCancelledAs(s, t, id, scope, now)
    case ExpiredAt(due, now) => ExpiredAs(s, t, due, now)
    case Woken(waits, now, fits) => WokenAs(s, t, waits, now, fits)
    case Settled(acked, unread, now) => SettledAs(s, t, acked, unread, now)
    case CleanedUp(id, attempt, failed) => CleanedAs(s, t, id, attempt, failed)
    case ProcessLost(lost) => Lost(s, t, lost)
    case SlotReconciled(id, attempt, owner, alive, proved) =>
      if MayReconcile(s, id, attempt, owner, alive, proved) then SlotRemoved(s, t, id) else t == s
    case FailuresReleased(expected, delivered) => Forgotten(s, t, expected, delivered)
  }

  // ----- each transaction is what its relation says ----------------------------------

  lemma SubmitIs(cfg: Config, s: Store, r: Request, now: Time)
    ensures SubmittedAs(cfg, s, Submit(cfg, s, r, now).0, r, now)
  {
    hide Submit, MayRenew, HasRoom, RootAdded, HintsMerged, ServedBy;
    SubmissionMeans(cfg, s, r, now);
  }

  lemma ClaimIs(cfg: Config, s: Store, rows: seq<JobId>, d: Dispatch)
    requires TreeInv(s)
    ensures ClaimedAs(cfg, s, Claim(cfg, s, rows, d).0, rows, d)
  {
    hide TreeInv, Scan, Reclaim, ScannedBy, TakenBack;
    ReclaimTakesBack(s, d);
    ReclaimKeepsTree(s, d);
    var stores, n := ScanTraced(cfg, Reclaim(s, d), rows, d);
  }

  lemma ReclaimKeepsTree(s: Store, d: Dispatch)
    requires TreeInv(s)
    ensures TreeInv(Reclaim(s, d))
  {
    hide Reclaimable;
  }

  lemma ReportIs(cfg: Config, s: Store, id: JobId, attempt: int, report: Report, now: Time, late: Time,
                 alive: set<Process>, fits: bool)
    requires TreeInv(s)
    ensures var t := Finish(cfg, s, id, attempt, report, now, late, alive, fits).0;
      if HoldsFence(s, id, attempt, now, alive) && id in s.frames && MayReport(s, id, report, now, fits)
      then ReportedAs(cfg, s, t, id, report, now, late) else t == s
  {
    hide TreeInv, Finish, HoldsFence, MayReport, Counted, Written, RecordFor;
    ReportIsCommitted(cfg, s, id, attempt, report, now, late, alive, fits);
    assert HoldsFence(s, id, attempt, now, alive) ==> id in s.jobs by { FenceIs(s, id, attempt, now, alive); }
  }

  lemma CancelIs(s: Store, id: JobId, scope: Scope, now: Time)
    requires TreeInv(s)
    ensures CancelledAs(s, Cancel(s, id, scope, now).0, id, scope, now)
    ensures PreparationCancelledAs(s, CancelPreparation(s, id, scope, now).0, id, scope, now)
  {
    hide TreeInv, Cancel, CancelPreparation, EndedAndTrimmed, TreeEnded;
    CancellationMeans(s, id, scope, now);
    PreparationCancellationMeans(s, id, scope, now);
  }

  lemma ExpiryIs(s: Store, due: seq<(JobId, Job)>, now: Time)
    requires TreeInv(s) && DueRows(s, due, now)
    ensures ExpiredAs(s, ExpireAll(s, due, now), due, now)
  {
    DueRowsHaveFrames(s, due, now);
    hide TreeInv, DueRows, ExpireAll, ExpiredBy, RowsHaveFrames, RecordAfterExpiry;
    var stores := ExpiryTraced(s, due, now);
    forall x | x in s.jobs
      ensures RecordAfterExpiry(s, ExpireAll(s, due, now), x, now)
    {
      RecordExpires(s, due, now, x);
    }
  }

  lemma RecordExpires(s: Store, due: seq<(JobId, Job)>, now: Time, x: JobId)
    requires TreeInv(s) && DueRows(s, due, now) && x in s.jobs
    ensures RecordAfterExpiry(s, ExpireAll(s, due, now), x, now)
  {
    hide TreeInv, DueRows, ExpireAll, PastDeadline, DueAbove, FencedBelow, TimedOut;
    ExpiryMeans(s, due, now, x);
  }

  lemma DueRowsHaveFrames(s: Store, due: seq<(JobId, Job)>, now: Time)
    requires TreeInv(s) && DueRows(s, due, now)
    ensures RowsHaveFrames(s, due)
  {
    DueFramesKnown(s, due, now);
    LiveHaveFrames(s);
    hide TreeInv;
  }

  lemma WakeIs(s: Store, waits: seq<(JobId, int)>, now: Time, fits: bool)
    requires TreeInv(s)
    ensures WokenAs(s, Wake(s, waits, now, fits), waits, now, fits)
  {
    hide TreeInv, WakeAll, OnlyFiles, RowsAreResults, ParentAfter;
    if fits {
      forall p
        ensures OnlyFiles(s, Wake(s, waits, now, true)) && RowsAreResults(s, Wake(s, waits, now, true))
        ensures ParentAfter(s, Wake(s, waits, now, true), p, (p, 1) in waits, now)
      {
        WakeMeans(s, waits, now, p);
      }
      WakeMeans(s, waits, now, 0);
    }
  }

  lemma AdmissionStep(cfg: Config, s: Store, e: Event)
    requires TreeInv(s) && Enabled(s, e) && (e.Submitted? || e.Prepared? || e.Claimed? || e.Beaten?)
    ensures StepIs(cfg, s, e, Apply(cfg, s, e))
  {
    hide TreeInv, Submit, Prepare, Claim, Heartbeat, DispatchOrder, StalePreparation, SubmittedAs, PreparedAs,
      ClaimedAs,
      Renewed;
    match e
    case Submitted(r, now) => SubmitIs(cfg, s, r, now);
    case Prepared(id, scope, work, deadline, now, permitted, fits, stale) =>
      PreparationMeans(s, id, scope, work, deadline, now, permitted, fits, stale);
    case Claimed(rows, d) => ClaimIs(cfg, s, rows, d);
    case Beaten(id, attempt, now) => HeartbeatRenews(cfg, s, id, attempt, now);
  }

  lemma WriteStep(cfg: Config, s: Store, e: Event)
    requires TreeInv(s) && Enabled(s, e) && (forall id :: id in s.jobs ==> LogMatchesEvidence(s.jobs[id]))
    requires e.Observed? || e.Checkpointed?
    ensures StepIs(cfg, s, e, Apply(cfg, s, e))
  {
    hide TreeInv, LogMatchesEvidence, Observe, WriteCheckpoint, HoldsFence, MaySave, ObservationStored,
      CheckpointStored;
    FenceIs(s, e.id, e.attempt, e.now, e.alive);
    match e
    case Observed(id, attempt, text, now, alive, fits) =>
      ObservationIsStored(cfg, s, id, attempt, text, now, alive, fits);
    case Checkpointed(id, attempt, frames, scope, now, alive, fits) =>
      CheckpointIsStored(cfg, s, id, attempt, frames, scope, now, alive, fits);
  }

  lemma YieldStep(cfg: Config, s: Store, e: Event)
    requires TreeInv(s) && Enabled(s, e) && (e.Waited? || e.Finished?)
    ensures StepIs(cfg, s, e, Apply(cfg, s, e))
  {
    hide TreeInv, PrivateWait, Finish, HoldsFence, MayAskOnce, WaitRegistered, MayReport, ReportedAs;
    FenceIs(s, e.id, e.attempt, e.now, e.alive);
    match e
    case Waited(id, attempt, child, now, alive, room) => WaitIsRegistered(s, id, attempt, child, now, alive, room);
    case Finished(id, attempt, report, now, late, alive, fits) =>
      ReportIs(cfg, s, id, attempt, report, now, late, alive, fits);
  }

  lemma EndingStep(cfg: Config, s: Store, e: Event)
    requires TreeInv(s) && Enabled(s, e) && (e.CancelledBy? || e.PreparationCancelled? || e.ExpiredAt?)
    ensures StepIs(cfg, s, e, Apply(cfg, s, e))
  {
    hide TreeInv, Cancel, CancelPreparation, ExpireAll, DueRows, CancelledAs, PreparationCancelledAs, ExpiredAs;
    match e
    case CancelledBy(id, scope, now) => CancelIs(s, id, scope, now);
    case PreparationCancelled(id, scope, now) => CancelIs(s, id, scope, now);
    case ExpiredAt(due, now) => ExpiryIs(s, due, now);
  }

  lemma WaitStep(cfg: Config, s: Store, e: Event)
    requires TreeInv(s) && (e.Woken? || e.Settled?)
    ensures StepIs(cfg, s, e, Apply(cfg, s, e))
  {
    hide TreeInv, Wake, SettleWaits, WokenAs, SettledBy;
    match e
    case Woken(waits, now, fits) => WakeIs(s, waits, now, fits);
    case Settled(acked, unread, now) => SettlementMeans(s, acked, unread, now);
  }

  lemma CleanupStep(cfg: Config, s: Store, e: Event)
    requires TreeInv(s) && (e.CleanedUp? || e.ProcessLost?)
    ensures StepIs(cfg, s, e, Apply(cfg, s, e))
  {
    hide TreeInv, Cleanup, LoseWorkers, CleanedAs, Lost;
    match e
    case CleanedUp(id, attempt, failed) => CleanupIs(s, id, attempt, failed);
    case ProcessLost(lost) => LossIs(s, lost);
  }

  lemma RepairStep(cfg: Config, s: Store, e: Event)
    requires SlotsMatchJobs(s) && (e.SlotReconciled? || e.FailuresReleased?)
    ensures StepIs(cfg, s, e, Apply(cfg, s, e))
  {
    hide SlotsMatchJobs, ReconcileStaleSlot, ReleaseFailed, MayReconcile, SlotRemoved, Forgotten;
    match e
    case SlotReconciled(id, attempt, owner, alive, proved) => ReconciliationIs(s, id, attempt, owner, alive, proved);
    case FailuresReleased(expected, delivered) => FailuresForgotten(s, expected, delivered);
  }

  lemma StepMeans(cfg: Config, s: Store, e: Event)
    requires TreeInv(s) && SlotsMatchJobs(s) && Enabled(s, e)
    requires forall id :: id in s.jobs ==> LogMatchesEvidence(s.jobs[id])
    ensures StepIs(cfg, s, e, Apply(cfg, s, e))
  {
    hide *;
    if e.Observed? || e.Checkpointed? {
      WriteStep(cfg, s, e);
    } else if e.Waited? || e.Finished? {
      YieldStep(cfg, s, e);
    } else if e.Submitted? || e.Prepared? || e.Claimed? || e.Beaten? {
      AdmissionStep(cfg, s, e);
    } else if e.CleanedUp? || e.ProcessLost? {
      CleanupStep(cfg, s, e);
    } else if e.SlotReconciled? || e.FailuresReleased? {
      RepairStep(cfg, s, e);
    } else if e.Woken? || e.Settled? {
      WaitStep(cfg, s, e);
    } else {
      EndingStep(cfg, s, e);
    }
  }

  /** From every reachable store, every transaction does exactly what its relation says. */
  lemma EveryStepIsExact(cfg: Config, run: seq<Event>, e: Event)
    requires Run(cfg, EMPTY, run) && Enabled(After(cfg, EMPTY, run), e)
    ensures StepIs(cfg, After(cfg, EMPTY, run), e, Apply(cfg, After(cfg, EMPTY, run), e))
  {
    hide Inv, Run, After, Apply, Enabled, StepIs;
    var s := After(cfg, EMPTY, run);
    ReachableInvariant(cfg, run);
    PartsOf(cfg, s);
    StepMeans(cfg, s, e);
  }

  lemma PartsOf(cfg: Config, s: Store)
    requires Inv(cfg, s)
    ensures TreeInv(s) && SlotsMatchJobs(s) && forall id :: id in s.jobs ==> LogMatchesEvidence(s.jobs[id])
  {
    hide TreeInv, SlotsMatchJobs, SlotsBounded, AdmissionBounded, CheckpointInv, CacheInv, SuccessInv,
      LogMatchesEvidence;
  }

  // ----- what the callers are told ---------------------------------------------------

  /** What a worker's write needs to be accepted. */
  ghost predicate MayWrite(cfg: Config, s: Store, e: Event)
    requires IsWrite(e)
  {
    && HoldsFence(s, e.id, e.attempt, e.now, e.alive)
    && match e
       case Observed(id, attempt, text, now, alive, fits) => fits
       case Checkpointed(id, attempt, frames, scope, now, alive, fits) =>
         MaySave(cfg, s.jobs[id], frames, scope) && fits
       case Waited(id, attempt, child, now, alive, room) => MayAskOnce(s, id, now, room)
       case Finished(id, attempt, report, now, late, alive, fits) =>
         id in s.frames && MayReport(s, id, report, now, fits)
  }

  lemma WriteReplies(cfg: Config, s: Store, e: Event)
    requires TreeInv(s) && Enabled(s, e) && IsWrite(e)
    requires forall id :: id in s.jobs ==> LogMatchesEvidence(s.jobs[id])
    ensures Accepted(cfg, s, e) <==> MayWrite(cfg, s, e)
  {
    hide TreeInv, LogMatchesEvidence, Observe, WriteCheckpoint, PrivateWait, Finish, HoldsFence, MaySave, MayAskOnce,
      MayReport, ObservationStored, CheckpointStored, WaitRegistered, Counted, Written, RecordFor;
    FenceIs(s, e.id, e.attempt, e.now, e.alive);
    match e
    case Observed(id, attempt, text, now, alive, fits) =>
      ObservationIsStored(cfg, s, id, attempt, text, now, alive, fits);
    case Checkpointed(id, attempt, frames, scope, now, alive, fits) =>
      CheckpointIsStored(cfg, s, id, attempt, frames, scope, now, alive, fits);
    case Waited(id, attempt, child, now, alive, room) => WaitIsRegistered(s, id, attempt, child, now, alive, room);
    case Finished(id, attempt, report, now, late, alive, fits) =>
      ReportIsCommitted(cfg, s, id, attempt, report, now, late, alive, fits);
  }

  /** From every reachable store, a worker's write is accepted exactly if it may be made. */
  lemma WritesAcceptedIff(cfg: Config, run: seq<Event>, e: Event)
    requires Run(cfg, EMPTY, run) && Enabled(After(cfg, EMPTY, run), e) && IsWrite(e)
    ensures Accepted(cfg, After(cfg, EMPTY, run), e) <==> MayWrite(cfg, After(cfg, EMPTY, run), e)
  {
    hide Inv, Run, After, Apply, Enabled, Accepted, MayWrite;
    ReachableInvariant(cfg, run);
    PartsOf(cfg, After(cfg, EMPTY, run));
    WriteReplies(cfg, After(cfg, EMPTY, run), e);
  }

  /** From every reachable store, after the slots that are over were taken back, a claim begins
      the earliest job that may begin, and none only if none may; every earlier one was passed,
      and no later one was touched. */
  lemma ClaimsBeginEarliest(cfg: Config, run: seq<Event>, rows: seq<JobId>, d: Dispatch)
    requires Run(cfg, EMPTY, run) && DispatchOrder(After(cfg, EMPTY, run), rows)
    ensures var s := After(cfg, EMPTY, run);
      var (t, began) := Claim(cfg, s, rows, d);
      exists s0 :: TakenBack(s, s0, d) && ClaimDone(cfg, s0, t, began, d)
  {
    hide Inv, Run, After, TreeInv, Claim, Reclaim, DispatchOrder, TakenBack, ClaimDone;
    ReachableInvariant(cfg, run);
    PartsOf(cfg, After(cfg, EMPTY, run));
    ClaimMeans(cfg, After(cfg, EMPTY, run), rows, d);
  }
}
