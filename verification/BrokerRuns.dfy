/** Runs of the broker: any interleaving of its transactions, by any number of dispatcher
    threads and processes, with arbitrary clocks, liveness answers and policy decisions. */
module BrokerRuns {
  import opened Prelude
  import opened BrokerModel
  import opened BrokerSteps
  import opened BrokerInvariant
  import opened BrokerTree
  import opened BrokerTreeSteps
  import opened BrokerCalm
  import opened BrokerCalmSteps
  import opened BrokerWrites
  import opened BrokerWriteSteps
  import opened BrokerStarts
  import opened BrokerClaims
  import opened BrokerAnswers

  /** One committed transaction, with everything it was told from outside the store. */
  datatype Event =
    | Submitted(r: Request, now: Time)
    | Prepared(id: JobId, scope: Scope, work: Identity, deadline: Time, now: Time, permitted: bool, fits: bool,
        stale: seq<JobId>)
    | Claimed(rows: seq<JobId>, d: Dispatch)
    | Beaten(id: JobId, attempt: int, now: Time)
    | Observed(id: JobId, attempt: int, text: string, now: Time, alive: set<Process>, fits: bool)
    | Checkpointed(id: JobId, attempt: int, frames: seq<Observation>, frameScope: Option<Scope>, now: Time,
        alive: set<Process>, fits: bool)
    | Waited(id: JobId, attempt: int, child: JobId, now: Time, alive: set<Process>, room: bool)
    | Finished(id: JobId, attempt: int, report: Report, now: Time, late: Time, alive: set<Process>, fits: bool)
    | CancelledBy(id: JobId, scope: Scope, now: Time)
    | PreparationCancelled(id: JobId, scope: Scope, now: Time)
    | ExpiredAt(due: seq<(JobId, Job)>, now: Time)
    | Woken(waits: seq<(JobId, int)>, now: Time, fits: bool)
    | Settled(acked: seq<(JobId, int)>, unread: seq<(JobId, int)>, now: Time)
    | CleanedUp(id: JobId, attempt: int, failed: bool)
    | ProcessLost(lost: set<(JobId, int)>)
    | SlotReconciled(id: JobId, attempt: int, owner: Process, alive: set<Process>, proved: bool)
    | FailuresReleased(expected: map<JobId, Reason>, delivered: set<JobId>)

  ghost function Apply(cfg: Config, s: Store, e: Event): Store {
    match e
    case Submitted(r, now) => Submit(cfg, s, r, now).0
    case Prepared(id, scope, work, deadline, now, permitted, fits, stale) =>
      Prepare(s, id, scope, work, deadline, now, permitted, fits, stale).0
    case Claimed(rows, d) => Claim(cfg, s, rows, d).0
    case Beaten(id, attempt, now) => Heartbeat(cfg, s, id, attempt, now)
    case Observed(id, attempt, text, now, alive, fits) => Observe(cfg, s, id, attempt, text, now, alive, fits).0
    case Checkpointed(id, attempt, frames, scope, now, alive, fits) =>
      WriteCheckpoint(cfg, s, id, attempt, frames, scope, now, alive, fits).0
    case Waited(id, attempt, child, now, alive, room) => PrivateWait(s, id, attempt, child, now, alive, room).0
    case Finished(id, attempt, report, now, late, alive, fits) =>
      Finish(cfg, s, id, attempt, report, now, late, alive, fits).0
    case CancelledBy(id, scope, now) => Cancel(s, id, scope, now).0
    case PreparationCancelled(id, scope, now) => CancelPreparation(s, id, scope, now).0
    case ExpiredAt(due, now) => ExpireAll(s, due, now)
    case Woken(waits, now, fits) => Wake(s, waits, now, fits)
    case Settled(acked, unread, now) => SettleWaits(s, acked, unread, now)
    case CleanedUp(id, attempt, failed) => Cleanup(s, id, attempt, failed)
    case ProcessLost(lost) => LoseWorkers(s, lost)
    case SlotReconciled(id, attempt, owner, alive, proved) => ReconcileStaleSlot(s, id, attempt, owner, alive, proved).0
    case FailuresReleased(expected, delivered) => ReleaseFailed(s, expected, delivered)
  }

  /** New ids are fresh, and the lists a transaction reads are the tables' contents. */
  ghost predicate Enabled(s: Store, e: Event) {
    match e
    case Submitted(r, now) => r.id !in s.jobs
    case Prepared(id, _, work, _, _, _, _, stale) =>
      id !in s.jobs && forall j :: j in stale <==> StalePreparation(s, j, work)
    case Claimed(rows, d) => DispatchOrder(s, rows)
    case Waited(_, _, child, _, _, _) => child !in s.jobs
    case ExpiredAt(due, now) => DueRows(s, due, now)
    case _ => true
  }

  // ----- one step ------------------------------------------------------------------

  lemma InvParts(cfg: Config, s: Store)
    ensures Inv(cfg, s) <==> TreeInv(s) && Core(cfg, s) && Fifty(s)
  {
    hide TreeInv, SlotsMatchJobs, SlotsBounded, AdmissionBounded, LogInv, CheckpointInv, SuccessInv, IndexMatchesJobs,
      AnsweredSet;
  }

  lemma StepKeepsTree(cfg: Config, s: Store, e: Event)
    requires TreeInv(s) && Enabled(s, e)
    ensures TreeInv(Apply(cfg, s, e))
  {
    hide TreeInv, Submit, Prepare, Claim, Heartbeat, Observe, WriteCheckpoint, PrivateWait, Finish, Cancel,
      CancelPreparation,
      ExpireAll, WakeAll, SettleWaits, Cleanup, LoseWorkers, ReconcileStaleSlot, ReleaseFailed, DispatchOrder;
    match e
    case Submitted(r, now) => SubmitKeepsTree(cfg, s, r, now);
    case Prepared(id, scope, work, deadline, now, permitted, fits, stale) =>
      PrepareKeepsTree(s, id, scope, work, deadline, now, permitted, fits, stale);
    case Claimed(rows, d) => ClaimKeepsTree(cfg, s, rows, d);
    case Beaten(id, attempt, now) => HeartbeatKeepsTree(cfg, s, id, attempt, now);
    case Observed(id, attempt, text, now, alive, fits) => ObserveKeepsTree(cfg, s, id, attempt, text, now, alive, fits);
    case Checkpointed(id, attempt, frames, scope, now, alive, fits) =>
      CheckpointKeepsTree(cfg, s, id, attempt, frames, scope, now, alive, fits);
    case Waited(id, attempt, child, now, alive, room) =>
      PrivateWaitKeepsTree(cfg, s, id, attempt, child, now, alive, room);
    case Finished(id, attempt, report, now, late, alive, fits) =>
      FinishKeepsTree(cfg, s, id, attempt, report, now, late, alive, fits);
    case CancelledBy(id, scope, now) => CancelKeepsTree(s, id, scope, now);
    case PreparationCancelled(id, scope, now) => CancelKeepsTree(s, id, scope, now);
    case ExpiredAt(due, now) => DueFramesKnown(s, due, now); ExpireAllKeepsTree(s, due, now);
    case Woken(waits, now, fits) => WakeAllKeepsTree(s, waits, now);
    case Settled(acked, unread, now) => SettleWaitsKeepsTree(s, acked, unread, now);
    case CleanedUp(id, attempt, failed) => CleanupKeepsTree(s, id, attempt, failed);
    case ProcessLost(lost) => LoseWorkersKeepsTree(s, lost);
    case SlotReconciled(id, attempt, owner, alive, proved) => ReconcileKeepsTree(s, id, attempt, owner, alive, proved);
    case FailuresReleased(expected, delivered) => ReleaseFailedKeepsTree(s, expected, delivered);
  }

  lemma DueFramesKnown(s: Store, due: seq<(JobId, Job)>, now: Time)
    requires TreeInv(s) && DueRows(s, due, now)
    ensures forall i :: 0 <= i < |due| ==> due[i].0 in s.frames
  {
    EdgesAreJobs(s);
    hide TreeInv;
    forall i | 0 <= i < |due|
      ensures due[i].0 in s.frames
    {
      var id := due[i].0;
      assert id in s.jobs && due[i].1 == s.jobs[id] && Due(s.jobs[id], now);
    }
  }

  lemma StepWrites(cfg: Config, s: Store, e: Event)
    requires TreeInv(s) && Core(cfg, s) && Enabled(s, e)
    ensures Writes(cfg, s, Apply(cfg, s, e))
  {
    hide TreeInv, Core, Calm, Writes, Rooted, RootsKnown, Submit, Prepare, Claim, Heartbeat, Observe, WriteCheckpoint,
      PrivateWait, Finish, Cancel, CancelPreparation,
      ExpireAll, WakeAll, SettleWaits, Cleanup, LoseWorkers, ReconcileStaleSlot, ReleaseFailed, DispatchOrder, DueRows;
    TreeFacts(s);
    match e
    case Submitted(r, now) => SubmitWrites(cfg, s, r, now);
    case Prepared(id, scope, work, deadline, now, permitted, fits, stale) =>
      PrepareWrites(cfg, s, id, scope, work, deadline, now, permitted, fits, stale);
    case Claimed(rows, d) => ClaimWrites(cfg, s, rows, d);
    case Beaten(id, attempt, now) => HeartbeatCalm(cfg, s, id, attempt, now); CalmWrites(cfg, s, Apply(cfg, s, e));
    case Observed(id, attempt, text, now, alive, fits) => ObserveWrites(cfg, s, id, attempt, text, now, alive, fits);
    case Checkpointed(id, attempt, frames, scope, now, alive, fits) =>
      CheckpointWrites(cfg, s, id, attempt, frames, scope, now, alive, fits);
    case Waited(id, attempt, child, now, alive, room) =>
      PrivateWaitWrites(cfg, s, id, attempt, child, now, alive, room);
    case Finished(id, attempt, report, now, late, alive, fits) =>
      FinishWrites(cfg, s, id, attempt, report, now, late, alive, fits);
    case CancelledBy(id, scope, now) => CancelCalm(s, id, scope, now); CalmWrites(cfg, s, Apply(cfg, s, e));
    case PreparationCancelled(id, scope, now) => CancelCalm(s, id, scope, now); CalmWrites(cfg, s, Apply(cfg, s, e));
    case ExpiredAt(due, now) => ExpireAllCalm(s, due, now); CalmWrites(cfg, s, Apply(cfg, s, e));
    case Woken(waits, now, fits) => WakeAllWrites(cfg, s, waits, now); Unchanged(cfg, s);
    case Settled(acked, unread, now) => SettleWaitsCalm(s, acked, unread, now); CalmWrites(cfg, s, Apply(cfg, s, e));
    case CleanedUp(id, attempt, failed) =>
      SlotsOfCore(cfg, s); CleanupCalm(s, id, attempt, failed); CalmWrites(cfg, s, Apply(cfg, s, e));
    case ProcessLost(lost) => LoseWorkersCalm(s, lost); CalmWrites(cfg, s, Apply(cfg, s, e));
    case SlotReconciled(id, attempt, owner, alive, proved) =>
      ReconcileCalm(s, id, attempt, owner, alive, proved); CalmWrites(cfg, s, Apply(cfg, s, e));
    case FailuresReleased(expected, delivered) =>
      ReleaseFailedCalm(s, expected, delivered); CalmWrites(cfg, s, Apply(cfg, s, e));
  }

  lemma SlotsOfCore(cfg: Config, s: Store)
    requires Core(cfg, s)
    ensures SlotsMatchJobs(s) && SlotsBounded(s) && AdmissionBounded(s)
  {
    hide SlotsMatchJobs, SlotsBounded, AdmissionBounded, LogInv, CheckpointInv, IndexMatchesJobs, SuccessInv;
  }

  lemma StepFifty(cfg: Config, s: Store, e: Event)
    requires TreeInv(s) && Core(cfg, s) && Fifty(s) && Enabled(s, e)
    ensures Fifty(Apply(cfg, s, e))
  {
    hide TreeInv, Core, Fifty, Quiet, IndexMatchesJobs, Submit, Prepare, Claim, Heartbeat, Observe, WriteCheckpoint,
      PrivateWait, Finish, Cancel, CancelPreparation,
      ExpireAll, WakeAll, SettleWaits, Cleanup, LoseWorkers, ReconcileStaleSlot, ReleaseFailed, DispatchOrder, DueRows;
    IndexOfCore(cfg, s);
    var t := Apply(cfg, s, e);
    match e
    case Submitted(r, now) => SubmitQuiet(cfg, s, r, now); QuietKeepsFifty(s, t);
    case Prepared(id, scope, work, deadline, now, permitted, fits, stale) =>
      PrepareQuiet(s, id, scope, work, deadline, now, permitted, fits, stale); QuietKeepsFifty(s, t);
    case Claimed(rows, d) => ClaimFifty(cfg, s, rows, d);
    case Beaten(id, attempt, now) => HeartbeatQuiet(cfg, s, id, attempt, now); QuietKeepsFifty(s, t);
    case Observed(id, attempt, text, now, alive, fits) =>
      ObserveQuiet(cfg, s, id, attempt, text, now, alive, fits); QuietKeepsFifty(s, t);
    case Checkpointed(id, attempt, frames, scope, now, alive, fits) =>
      CheckpointQuiet(cfg, s, id, attempt, frames, scope, now, alive, fits); QuietKeepsFifty(s, t);
    case Waited(id, attempt, child, now, alive, room) =>
      PrivateWaitQuiet(s, id, attempt, child, now, alive, room); QuietKeepsFifty(s, t);
    case Finished(id, attempt, report, now, late, alive, fits) =>
      FinishFifty(cfg, s, id, attempt, report, now, late, alive, fits);
    case CancelledBy(id, scope, now) => CancelFifty(s, id, scope, now);
    case PreparationCancelled(id, scope, now) => CancelPreparationQuiet(s, id, scope, now); QuietKeepsFifty(s, t);
    case ExpiredAt(due, now) => ExpireAllFifty(s, due, now);
    case Woken(waits, now, fits) => WakeAllQuiet(s, waits, now); QuietKeepsFifty(s, WakeAll(s, waits, now));
    case Settled(acked, unread, now) => SettleWaitsQuiet(s, acked, unread, now); QuietKeepsFifty(s, t);
    case CleanedUp(id, attempt, failed) => CleanupQuiet(s, id, attempt, failed); QuietKeepsFifty(s, t);
    case ProcessLost(lost) => WorkersQuiet(s, lost); QuietKeepsFifty(s, t);
    case SlotReconciled(id, attempt, owner, alive, proved) =>
      ReconcileQuiet(s, id, attempt, owner, alive, proved); QuietKeepsFifty(s, t);
    case FailuresReleased(expected, delivered) => ReleaseFailedQuiet(s, expected, delivered); QuietKeepsFifty(s, t);
  }

  /** Every transaction keeps the whole invariant and only moves jobs forward. */
  lemma StepKeepsInvariant(cfg: Config, s: Store, e: Event)
    requires Inv(cfg, s) && Enabled(s, e)
    ensures Inv(cfg, Apply(cfg, s, e))
    ensures Evolves(s, Apply(cfg, s, e))
  {
    hide Inv, TreeInv, Core, Fifty, Writes, Evolves, Apply, Enabled;
    var t := Apply(cfg, s, e);
    InvParts(cfg, s);
    InvParts(cfg, t);
    StepKeepsTree(cfg, s, e);
    StepWrites(cfg, s, e);
    StepFifty(cfg, s, e);
    CoreOf(cfg, s, t);
  }

  // ----- runs ----------------------------------------------------------------------

  /** The store after a run of transactions. */
  ghost function After(cfg: Config, s: Store, run: seq<Event>): Store
    decreases |run|
  {
    if run == [] then s else Apply(cfg, After(cfg, s, run[..|run| - 1]), run[|run| - 1])
  }

  ghost predicate Run(cfg: Config, s: Store, run: seq<Event>)
    decreases |run|
  {
    run != [] ==>
      Run(cfg, s, run[..|run| - 1]) && Enabled(After(cfg, s, run[..|run| - 1]), run[|run| - 1])
  }

  lemma EmptyStoreInvariant(cfg: Config)
    ensures Inv(cfg, EMPTY)
  {
    assert AnsweredSet(EMPTY) == {} && PublicLoad(EMPTY) == {} && AutomaticSlots(EMPTY) == {};
  }

  lemma {:induction false} RunKeepsInvariant(cfg: Config, s: Store, run: seq<Event>)
    requires Inv(cfg, s) && Run(cfg, s, run)
    ensures Inv(cfg, After(cfg, s, run))
    ensures Evolves(s, After(cfg, s, run))
    decreases |run|
  {
    hide Inv, Apply, Enabled;
    if run != [] {
      var before := run[..|run| - 1];
      RunKeepsInvariant(cfg, s, before);
      StepKeepsInvariant(cfg, After(cfg, s, before), run[|run| - 1]);
      EvolvesTransitive(s, After(cfg, s, before), After(cfg, s, run));
    }
  }

  /** Every reachable store satisfies the invariant. */
  lemma ReachableInvariant(cfg: Config, run: seq<Event>)
    requires Run(cfg, EMPTY, run)
    ensures Inv(cfg, After(cfg, EMPTY, run))
  {
    hide Inv;
    EmptyStoreInvariant(cfg);
    RunKeepsInvariant(cfg, EMPTY, run);
  }

  lemma {:induction false} RunSplits(cfg: Config, s: Store, first: seq<Event>, rest: seq<Event>)
    requires Run(cfg, s, first + rest)
    ensures Run(cfg, s, first) && Run(cfg, After(cfg, s, first), rest)
    ensures After(cfg, s, first + rest) == After(cfg, After(cfg, s, first), rest)
    decreases |rest|
  {
    hide Apply, Enabled;
    if rest == [] {
      assert first + rest == first;
    } else {
      var shorter := rest[..|rest| - 1];
      assert (first + rest)[..|first + rest| - 1] == first + shorter;
      RunSplits(cfg, s, first, shorter);
    }
  }
}
