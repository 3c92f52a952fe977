/** The life of an execution slot: the only ways it can leave, over whole runs. */
module BrokerSlotLife {
  import opened Prelude
  import opened BrokerModel
  import opened BrokerSteps
  import opened BrokerInvariant
  import opened BrokerTree
  import opened BrokerTreeSteps
  import opened BrokerCalm
  import opened BrokerCalmSteps
  import opened BrokerStarts
  import opened BrokerClaims
  import opened BrokerAnswers
  import opened BrokerRuns

  /** The same execution still holds the slot; a failed cleanup is not forgotten. */
  ghost predicate SlotHeld(s: Store, t: Store, id: JobId)
    requires id in s.slots
  {
    && id in t.slots && t.slots[id].attempt == s.slots[id].attempt && t.slots[id].owner == s.slots[id].owner
    && (s.slots[id].cleanupFailed ==> t.slots[id].cleanupFailed)
  }

  /** The three ways out: the execution's own proved cleanup, an expired lease whose owner is
      not alive, and the operator's reconciliation of exactly this failed slot. */
  ghost predicate Leaves(s: Store, e: Event, id: JobId)
    requires id in s.slots
  {
    match e
    case CleanedUp(i, attempt, failed) =>
      i == id && attempt == s.slots[id].attempt && !failed && (id, attempt) in s.workers && !s.slots[id].cleanupFailed
    case Claimed(_, d) => Reclaimable(s.slots[id], d)
    case SlotReconciled(i, attempt, owner, alive, proved) =>
      && i == id && attempt == s.slots[id].attempt && s.slots[id].owner == Some(owner)
      && owner !in alive && proved && s.slots[id].cleanupFailed
      && id in s.jobs && s.jobs[id].status.Terminal()
    case _ => false
  }

  ghost predicate SlotsKept(s: Store, t: Store) {
    forall id :: id in s.slots ==> SlotHeld(s, t, id)
  }

  lemma SameSlotsKept(s: Store, t: Store)
    requires t.slots == s.slots
    ensures SlotsKept(s, t)
  {
  }

  lemma CancelAllSlots(s: Store, order: seq<JobId>, reason: Reason, now: Time)
    ensures CancelAll(s, order, reason, now).slots == s.slots
    decreases |order|
  {
    if order != [] {
      hide EndTree;
      var id := order[0];
      var s1 := if Live(s, id)
        then EndTree(s, id, CancelledJob(s.jobs[id], reason, now), Outcome(EndedAs(Cancelled), [], None), now) else s;
      if Live(s, id) {
        EndTreeSlots(s, id, CancelledJob(s.jobs[id], reason, now), Outcome(EndedAs(Cancelled), [], None), now);
      }
      CancelAllSlots(s1, order[1..], reason, now);
    }
  }

  lemma EndTreeSlots(s: Store, id: JobId, ended: Job, outcome: Outcome, now: Time)
    ensures EndTree(s, id, ended, outcome, now).slots == s.slots
  {
    hide CancelJobs, CancelFrames, EndFrame, Descendants;
    if id in s.frames {
      var s1 := s.(jobs := s.jobs[id := ended]);
      var s2 := CancelDescendants(s1, id, now);
      assert EndTree(s, id, ended, outcome, now) == s2.(frames := EndFrame(s2.frames, id, outcome, now));
      assert s2.slots == s1.slots;
    }
  }

  lemma ExpireAllSlots(s: Store, rows: seq<(JobId, Job)>, now: Time)
    ensures ExpireAll(s, rows, now).slots == s.slots
    decreases |rows|
  {
    if rows != [] {
      hide EndTree;
      EndTreeSlots(s, rows[0].0, ExpiredJob(rows[0].1, now), Outcome(Expired, rows[0].1.evidence, None), now);
      assert ExpireOne(s, rows[0].0, rows[0].1, now).slots == s.slots;
      hide ExpireOne;
      ExpireAllSlots(ExpireOne(s, rows[0].0, rows[0].1, now), rows[1..], now);
    }
  }

  lemma WakeAllSlots(s: Store, waits: seq<(JobId, int)>, now: Time)
    ensures WakeAll(s, waits, now).slots == s.slots
    decreases |waits|
  {
    if waits != [] {
      WakeOneSlots(s, waits[0].0, waits[0].1, now);
      hide WakeOne;
      WakeAllSlots(WakeOne(s, waits[0].0, waits[0].1, now), waits[1..], now);
    }
  }

  lemma WakeOneSlots(s: Store, p: JobId, g: int, now: Time)
    ensures WakeOne(s, p, g, now).slots == s.slots
  {
    hide MarkReady, OutcomeReady, ChildRefs;
    MarkReadyShape(s, p, g);
  }

  lemma SettleWaitsSlots(s: Store, acked: seq<(JobId, int)>, unread: seq<(JobId, int)>, now: Time)
    ensures SettleWaits(s, acked, unread, now).slots == s.slots
  {
    hide ConsumeAll, RetireAll;
    ConsumeAllSlots(s, acked, now);
    RetireAllSlots(ConsumeAll(s, acked, now), unread);
  }

  lemma ConsumeAllSlots(s: Store, waits: seq<(JobId, int)>, now: Time)
    ensures ConsumeAll(s, waits, now).slots == s.slots
    decreases |waits|
  {
    if waits != [] {
      ConsumeOneSlots(s, waits[0].0, waits[0].1, now);
      hide ConsumeOne;
      ConsumeAllSlots(ConsumeOne(s, waits[0].0, waits[0].1, now), waits[1..], now);
    }
  }

  lemma ConsumeOneSlots(s: Store, p: JobId, g: int, now: Time)
    ensures ConsumeOne(s, p, g, now).slots == s.slots
  {
    hide MarkReady, OutcomeReady, EndFrame;
    var s1 := MarkReady(s, p, g);
    MarkReadyShape(s, p, g);
    if p !in s.slots && ConsumeReady(s1, p, g) {
      var w := WaitAt(s1, p, g);
      var s2 := PutWait(s1, p, g, w.(consumed := true, acked := false));
      var s3 := ResumeFrame(s2, p);
      assert s3.slots == s.slots;
      hide ResumeFrame, PutWait;
      assert EndOwnFrame(DropFrame(s3, w.child), p, now).slots == s.slots;
    }
  }

  lemma RetireAllSlots(s: Store, waits: seq<(JobId, int)>)
    ensures RetireAll(s, waits).slots == s.slots
    decreases |waits|
  {
    if waits != [] {
      assert RetireOne(s, waits[0].0, waits[0].1).slots == s.slots by { hide RetireReady; }
      hide RetireOne;
      RetireAllSlots(RetireOne(s, waits[0].0, waits[0].1), waits[1..]);
    }
  }

  lemma FinishSlots(cfg: Config, s: Store, id: JobId, attempt: int, report: Report, now: Time, late: Time,
                    alive: set<Process>, fits: bool)
    ensures Finish(cfg, s, id, attempt, report, now, late, alive, fits).0.slots == s.slots
  {
    hide Forced, FinalStatus, Normalised, FinishCommits, CommitReport, FinishPrologue;
    var r := Normalised(report);
    if IsRunning(s, id, attempt, now, alive) && FinishCommits(s, id, r, now, fits) {
      var f := Forced(s, id, r, now);
      PrologueShape(s, id, r);
      CommitSlots(cfg, FinishPrologue(s, id, r), id, f, FinalStatus(s.jobs[id], f), r.consumed.Some?, late);
    }
  }

  lemma CommitSlots(cfg: Config, s: Store, id: JobId, f: Report, status: Status, acknowledged: bool, late: Time)
    requires id in s.jobs
    ensures CommitReport(cfg, s, id, f, status, acknowledged, late).slots == s.slots
  {
    hide FinishedJob, EndTree, EndingOf, Acknowledge;
    var ended := FinishedJob(cfg, s.jobs[id], f, status, late).(result := Some(|s.outbox|));
    var s1 := s.(outbox := s.outbox + [Row(id, [])]);
    EndTreeSlots(s1, id, ended, Outcome(EndingOf(status, f.reason), ended.evidence, ended.result), late);
    AcknowledgeSlots(s1.(jobs := s1.jobs[id := ended]), id);
  }

  lemma AcknowledgeSlots(s: Store, id: JobId)
    ensures Acknowledge(s, id).slots == s.slots
  {
  }

  lemma ScanKeepsSlots(cfg: Config, s: Store, rows: seq<JobId>, d: Dispatch)
    ensures SlotsKept(s, Scan(cfg, s, rows, d).0)
    decreases |rows|
  {
    if rows == [] {
    } else if rows[0] !in s.jobs {
      ScanKeepsSlots(cfg, s, rows[1..], d);
    } else {
      ScanRowKeepsSlots(cfg, s, rows[0], d);
      hide ScanRow;
      ScanKeepsSlots(cfg, ScanRow(cfg, s, rows[0], d).0, rows[1..], d);
    }
  }

  lemma ScanRowKeepsSlots(cfg: Config, s: Store, id: JobId, d: Dispatch)
    requires id in s.jobs
    ensures SlotsKept(s, ScanRow(cfg, s, id, d).0)
  {
    hide FrameGate, Exhausted, Requeue, AutomaticSlots, Automatic, Retire;
    if Live(s, id) {
      var s1 := Requeue(s, id, d.now);
      RequeueShape(s, id, d.now);
      RetireSlots(s1, id, d.now);
      assert id !in s.slots ==> SlotsKept(s, Start(cfg, s1, id, d));
      hide Start, SlotsKept;
      SameSlotsKept(s, s1);
      SameSlotsKept(s, Retire(s1, id, d.now));
    }
    SameSlotsKept(s, s);
  }

  lemma RetireSlots(s: Store, id: JobId, now: Time)
    requires id in s.jobs
    ensures Retire(s, id, now).slots == s.slots
  {
  }

  lemma ClaimKeepsSlots(cfg: Config, s: Store, rows: seq<JobId>, d: Dispatch, id: JobId)
    requires id in s.slots && !Reclaimable(s.slots[id], d)
    ensures SlotHeld(s, Claim(cfg, s, rows, d).0, id)
  {
    hide Scan, Reclaimable;
    var s0 := Reclaim(s, d);
    assert id in s0.slots && s0.slots[id] == s.slots[id];
    ScanKeepsSlots(cfg, s0, rows, d);
    assert SlotHeld(s0, Scan(cfg, s0, rows, d).0, id);
  }

  /** Most transactions do not touch the slot table at all. */
  lemma QuietSteps(cfg: Config, s: Store, e: Event)
    requires !e.Claimed? && !e.Beaten? && !e.CleanedUp? && !e.SlotReconciled?
    ensures Apply(cfg, s, e).slots == s.slots
  {
    hide Submit, CancelAll, Observe, WriteCheckpoint, PrivateWait, Finish, Cancel, CancelPreparation,
      ExpireAll, WakeAll, SettleWaits, ReleasesFailure;
    match e
    case Submitted(r, now) => SubmitSlots(cfg, s, r, now);
    case Prepared(i, scope, work, deadline, now, permitted, fits, stale) =>
      CancelAllSlots(s, stale, Other("preparation_source_changed"), now);
    case Observed(i, attempt, text, now, alive, fits) => WorkerSlots(cfg, s, e);
    case Checkpointed(i, attempt, frames, scope, now, alive, fits) => WorkerSlots(cfg, s, e);
    case Waited(i, attempt, child, now, alive, room) => WorkerSlots(cfg, s, e);
    case Finished(i, attempt, report, now, late, alive, fits) =>
      FinishSlots(cfg, s, i, attempt, report, now, late, alive, fits);
    case CancelledBy(i, scope, now) => CancelSlots(s, i, scope, now);
    case PreparationCancelled(i, scope, now) => CancelSlots(s, i, scope, now);
    case ExpiredAt(due, now) => ExpireAllSlots(s, due, now);
    case Woken(waits, now, fits) => WakeAllSlots(s, waits, now);
    case Settled(acked, unread, now) => SettleWaitsSlots(s, acked, unread, now);
    case ProcessLost(lost) =>
    case FailuresReleased(expected, delivered) =>
  }

  /** A slot outlives every transaction but the three that may remove it. */
  lemma SlotLeavesOnlyBy(cfg: Config, s: Store, e: Event, id: JobId)
    requires SlotsMatchJobs(s) && id in s.slots
    ensures SlotHeld(s, Apply(cfg, s, e), id) || Leaves(s, e, id)
  {
    hide SlotsMatchJobs, Claim, Heartbeat, Cleanup, ReconcileStaleSlot, Reclaimable, SlotHeld;
    match e
    case Claimed(rows, d) => if !Reclaimable(s.slots[id], d) { ClaimKeepsSlots(cfg, s, rows, d, id); }
    case Beaten(i, attempt, now) => HeartbeatSlots(cfg, s, i, attempt, now, id);
    case CleanedUp(i, attempt, failed) => CleanupSlots(s, i, attempt, failed, id);
    case SlotReconciled(i, attempt, owner, alive, proved) => ReconcileSlots(s, i, attempt, owner, alive, proved, id);
    case _ =>
      hide Apply;
      QuietSteps(cfg, s, e);
      SameSlotHeld(s, Apply(cfg, s, e), id);
  }

  lemma SameSlotHeld(s: Store, t: Store, id: JobId)
    requires t.slots == s.slots && id in s.slots
    ensures SlotHeld(s, t, id)
  {
  }

  lemma SubmitSlots(cfg: Config, s: Store, r: Request, now: Time)
    ensures Submit(cfg, s, r, now).0.slots == s.slots
  {
    hide CacheReply, RefreshedHints, PublicLoad, Indexed;
  }

  lemma HeartbeatSlots(cfg: Config, s: Store, i: JobId, attempt: int, now: Time, id: JobId)
    requires id in s.slots
    ensures SlotHeld(s, Heartbeat(cfg, s, i, attempt, now), id)
  {
  }

  lemma WorkerSlots(cfg: Config, s: Store, e: Event)
    requires e.Observed? || e.Checkpointed? || e.Waited?
    ensures Apply(cfg, s, e).slots == s.slots
  {
    hide CheckpointAccepted, WaitCount, HasWait, WaitAt;
  }

  lemma CancelSlots(s: Store, id: JobId, scope: Scope, now: Time)
    ensures Cancel(s, id, scope, now).0.slots == s.slots && CancelPreparation(s, id, scope, now).0.slots == s.slots
  {
    hide EndTree;
    if Live(s, id) {
      EndTreeSlots(s, id, CancelledJob(s.jobs[id], s.jobs[id].reason, now), Outcome(EndedAs(Cancelled), [], None), now);
      EndTreeSlots(s, id, CancelledJob(s.jobs[id], Other("operator_cancelled"), now),
        Outcome(EndedAs(Cancelled), [], None), now);
    }
  }

  lemma CleanupSlots(s: Store, i: JobId, attempt: int, failed: bool, id: JobId)
    requires SlotsMatchJobs(s) && id in s.slots
    ensures SlotHeld(s, Cleanup(s, i, attempt, failed), id) || Leaves(s, CleanedUp(i, attempt, failed), id)
  {
    hide SlotsMatchJobs, ReleaseParent, FreeSlot, KeepFailedSlot;
    var slot := s.slots[id];
    if (i, attempt) in s.workers {
      if failed {
        KeepFailedHolds(s, i, attempt, id);
      } else {
        ReleaseParentSlots(FreeSlot(s, i, attempt), i);
        if i == id && attempt == slot.attempt {
          FailedHasNoWorker(s, id);
        } else {
          FreeOtherHolds(s, i, attempt, id);
        }
      }
    }
  }

  lemma KeepFailedHolds(s: Store, i: JobId, attempt: int, id: JobId)
    requires id in s.slots
    ensures SlotHeld(s, KeepFailedSlot(s, i, attempt), id)
  {
  }

  lemma FreeOtherHolds(s: Store, i: JobId, attempt: int, id: JobId)
    requires id in s.slots && (i != id || attempt != s.slots[id].attempt)
    ensures SlotHeld(s, FreeSlot(s, i, attempt), id)
  {
  }

  lemma ReleaseParentSlots(s: Store, p: JobId)
    ensures ReleaseParent(s, p).slots == s.slots
  {
    hide ReleasesParent;
  }

  lemma FailedHasNoWorker(s: Store, id: JobId)
    requires SlotsMatchJobs(s) && id in s.slots && (id, s.slots[id].attempt) in s.workers
    ensures !s.slots[id].cleanupFailed
  {
  }

  lemma ReconcileSlots(s: Store, i: JobId, attempt: int, owner: Process, alive: set<Process>, proved: bool, id: JobId)
    requires id in s.slots
    ensures SlotHeld(s, ReconcileStaleSlot(s, i, attempt, owner, alive, proved).0, id)
      || Leaves(s, SlotReconciled(i, attempt, owner, alive, proved), id)
  {
  }

  // ----- over runs -----------------------------------------------------------------

  /** None of the run's transactions may remove a slot with this attempt and owner, whatever
      its lease: its cleanup is not reported done, it is not reconciled, and no claim sees its
      owner dead while its cleanup has not failed. */
  ghost predicate SlotSafe(e: Event, id: JobId, slot: Slot) {
    && !(e.SlotReconciled? && e.id == id && e.attempt == slot.attempt && slot.owner == Some(e.owner)
      && e.owner !in e.alive)
    && (slot.cleanupFailed
        || (&& !(e.CleanedUp? && e.id == id && e.attempt == slot.attempt && !e.failed)
            && (e.Claimed? ==> OwnerAlive(slot.owner, e.d.alive))))
  }

  lemma SafeStepKeepsSlot(cfg: Config, s: Store, t: Store, e: Event, id: JobId)
    requires SlotsMatchJobs(t) && id in s.slots && id in t.slots && SlotHeld(s, t, id) && SlotSafe(e, id, s.slots[id])
    ensures SlotHeld(s, Apply(cfg, t, e), id)
  {
    hide SlotsMatchJobs, Apply;
    SlotLeavesOnlyBy(cfg, t, e, id);
    assert !Leaves(t, e, id);
  }

  /** A slot whose owner is alive at every claim, or whose cleanup failed, stays through any
      run that neither cleans it up nor reconciles exactly it. */
  lemma {:induction false} SlotStays(cfg: Config, s: Store, run: seq<Event>, id: JobId)
    requires Inv(cfg, s) && Run(cfg, s, run) && id in s.slots
    requires forall k :: 0 <= k < |run| ==> SlotSafe(run[k], id, s.slots[id])
    ensures SlotHeld(s, After(cfg, s, run), id)
    decreases |run|
  {
    hide Inv, Apply, Enabled, SlotSafe;
    if run != [] {
      var before, e := run[..|run| - 1], run[|run| - 1];
      forall k | 0 <= k < |before|
        ensures SlotSafe(before[k], id, s.slots[id])
      {
        assert before[k] == run[k];
      }
      SlotStays(cfg, s, before, id);
      var t := After(cfg, s, before);
      RunKeepsInvariant(cfg, s, before);
      SlotsOfInv(cfg, t);
      SafeStepKeepsSlot(cfg, s, t, e, id);
    }
  }

  lemma SlotsOfInv(cfg: Config, s: Store)
    requires Inv(cfg, s)
    ensures SlotsMatchJobs(s)
  {
    hide TreeInv, SlotsMatchJobs, SlotsBounded, AdmissionBounded, LogInv, CheckpointInv, CacheInv, SuccessInv;
  }
}
