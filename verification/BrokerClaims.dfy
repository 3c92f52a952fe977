/** Claiming and reporting keep the core. */
module BrokerClaims {
  import opened Prelude
  import opened BrokerModel
  import opened BrokerSteps
  import opened BrokerInvariant
  import opened BrokerTree
  import opened BrokerTreeSteps
  import opened BrokerCalm
  import opened BrokerCalmSteps
  import opened BrokerWrites
  import opened BrokerWriteSteps
  import opened BrokerStarts

  // ----- starting an attempt -------------------------------------------------------

  /** What the scan has checked when it starts a job. */
  ghost predicate MayStart(s: Store, id: JobId) {
    && Live(s, id) && id in s.frames && !s.frames[id].state.FrameEnded? && RootsKnown(s.frames)
    && id !in s.slots && |s.slots| < EXECUTION_SLOT_CAPACITY
    && (Automatic(s, id) ==> |AutomaticSlots(s)| < 1)
  }

  /** What starting changes: the row, the frame's state, a new slot, a new worker. */
  ghost predicate StartsJob(s: Store, t: Store, id: JobId) {
    && id in s.jobs && id in t.jobs && id in s.frames && id in t.frames && id in t.slots
    && t == s.(jobs := s.jobs[id := t.jobs[id]], frames := s.frames[id := t.frames[id]],
               slots := s.slots[id := t.slots[id]], workers := s.workers + {(id, t.jobs[id].attempt)})
    && t.jobs[id].status.Running? && t.jobs[id].attempt == s.jobs[id].attempt + 1 && SameLog(s.jobs[id], t.jobs[id])
    && t.frames[id].state.FrameRunning? && t.frames[id].root == s.frames[id].root
    && t.frames[id].automatic == s.frames[id].automatic
    && t.slots[id].attempt == t.jobs[id].attempt && !t.slots[id].cleanupFailed
  }

  lemma StartShape(cfg: Config, s: Store, id: JobId, d: Dispatch)
    requires id in s.jobs && id in s.frames
    ensures StartsJob(s, Start(cfg, s, id, d), id)
  {
  }

  lemma StartSlotsMatch(s: Store, t: Store, id: JobId)
    requires SlotsMatchJobs(s) && MayStart(s, id) && StartsJob(s, t, id)
    ensures SlotsMatchJobs(t)
  {
    hide RootsKnown, AutomaticSlots, SameLog;
  }

  lemma StartAutomatic(s: Store, t: Store, id: JobId)
    requires RootsKnown(s.frames) && StartsJob(s, t, id)
    ensures forall x :: Automatic(t, x) == Automatic(s, x)
    ensures AutomaticSlots(t) <= AutomaticSlots(s) + {id}
    ensures !Automatic(s, id) ==> AutomaticSlots(t) <= AutomaticSlots(s)
  {
    hide SameLog;
    assert forall x :: x in s.frames ==>
      x in t.frames && t.frames[x].root == s.frames[x].root && t.frames[x].automatic == s.frames[x].automatic;
    assert t.frames.Keys == s.frames.Keys && t.slots.Keys == s.slots.Keys + {id};
    hide StartsJob;
  }

  lemma StartBounds(s: Store, t: Store, id: JobId)
    requires SlotsBounded(s) && MayStart(s, id) && StartsJob(s, t, id)
    ensures SlotsBounded(t)
  {
    StartAutomatic(s, t, id) by { hide AutomaticSlots; }
    assert t.slots == s.slots[id := t.slots[id]];
    hide RootsKnown, SameLog, AutomaticSlots, Automatic, StartsJob;
    SubsetSize(AutomaticSlots(t), AutomaticSlots(s) + {id});
    if !Automatic(s, id) {
      SubsetSize(AutomaticSlots(t), AutomaticSlots(s));
    }
  }

  lemma StartLoad(s: Store, t: Store, id: JobId)
    requires AdmissionBounded(s) && MayStart(s, id) && StartsJob(s, t, id)
    ensures AdmissionBounded(t)
  {
    assert PublicLoad(t) <= PublicLoad(s) by { hide AutomaticSlots, RootsKnown, SameLog; }
    hide PublicLoad, StartsJob, MayStart;
    SubsetSize(PublicLoad(t), PublicLoad(s));
  }

  lemma StartLog(s: Store, t: Store, id: JobId)
    requires LogInv(s) && StartsJob(s, t, id)
    ensures LogInv(t)
  {
    assert WritesOnly(s, t, id) && LedgerGrows(s, t) by { hide LogInv; }
    assert SameLog(s.jobs[id], t.jobs[id]);
    hide LogInv, StartsJob, WritesOnly, SameLog, LedgerGrows, JobLog;
    RowLog(s, t, id);
    WriteKeepsLog(s, t, id);
  }

  lemma StartRest(cfg: Config, s: Store, t: Store, id: JobId)
    requires CheckpointInv(cfg, s) && IndexMatchesJobs(s.jobs, s.index) && SuccessInv(s) && MayStart(s, id)
    requires StartsJob(s, t, id)
    ensures CheckpointInv(cfg, t) && IndexMatchesJobs(t.jobs, t.index) && SuccessInv(t) && Evolves(s, t)
  {
    hide RootsKnown, AutomaticSlots, FramesFaithful, Hollow;
  }

  lemma StartWrites(cfg: Config, s: Store, id: JobId, d: Dispatch)
    requires Core(cfg, s) && MayStart(s, id)
    ensures Writes(cfg, s, Start(cfg, s, id, d))
  {
    var t := Start(cfg, s, id, d);
    hide StartsJob, Start, SlotsMatchJobs, SlotsBounded, AdmissionBounded, LogInv, CheckpointInv, IndexMatchesJobs,
      SuccessInv, Evolves, RootsKnown, AutomaticSlots;
    StartShape(cfg, s, id, d);
    hide MayStart;
    StartSlotsMatch(s, t, id);
    StartBounds(s, t, id);
    StartLoad(s, t, id);
    StartLog(s, t, id);
    StartRest(cfg, s, t, id);
  }

  // ----- the scan ------------------------------------------------------------------

  lemma RequeueShape(s: Store, id: JobId, now: Time)
    requires Live(s, id)
    ensures var t := Requeue(s, id, now);
      && t.slots == s.slots && t.frames == s.frames && t.preparations == s.preparations && t.edges == s.edges
      && t.index == s.index && t.workers == s.workers
      && Live(t, id) && t.jobs == s.jobs[id := t.jobs[id]]
      && (!ReadyToResume(s, id) ==> t == s)
  {
    if ReadyToResume(s, id) {
      MarkReadyShape(s, id, WaitCount(s, id)) by { hide MarkReady; }
      hide MarkReady, WaitCount;
    }
  }

  lemma GatesMeanMayStart(s: Store, s1: Store, id: JobId, d: Dispatch)
    requires TreeInv(s) && Live(s, id) && FrameGate(s, id, d.now) && DispatchGate(s, id, d)
    requires |s.slots| < EXECUTION_SLOT_CAPACITY
    requires s1.slots == s.slots && s1.frames == s.frames && Live(s1, id)
    ensures MayStart(s1, id)
  {
    TreeFacts(s) by { hide FrameGate, DispatchGate; }
    assert id in s.frames by {
      hide OneWait, EdgesMatchWaits, FramesMatchWaits, DepthBounded, Rooted, NoOrphans, OnePreparation, FrameGate,
        DispatchGate, RootsKnown;
    }
    hide TreeInv, RootsKnown, ReadyToResume, Eligible;
    assert AutomaticSlots(s1) == AutomaticSlots(s) && Automatic(s1, id) == Automatic(s, id);
  }

  lemma ScanRowWrites(cfg: Config, s: Store, id: JobId, d: Dispatch)
    requires Core(cfg, s) && TreeInv(s) && id in s.jobs
    ensures Writes(cfg, s, ScanRow(cfg, s, id, d).0)
  {
    hide Core, TreeInv, Rooted, RootsKnown, Writes, Calm, FrameGate, DispatchGate, Requeue, Retire, Start, MayStart,
      Exhausted;
    Unchanged(cfg, s);
    if Live(s, id) && FrameGate(s, id, d.now) {
      var s1 := Requeue(s, id, d.now);
      TreeFacts(s);
      RequeueShape(s, id, d.now);
      RequeueCalm(s, id, d.now);
      CalmWrites(cfg, s, s1);
      if DispatchGate(s, id, d) {
        CoreOf(cfg, s, s1);
        if Exhausted(s, id, d.now) {
          RetireCalm(s1, id, d.now);
          CalmWrites(cfg, s1, Retire(s1, id, d.now));
          WritesTransitive(cfg, s, s1, Retire(s1, id, d.now));
        } else if s.jobs[id].available <= d.now && |s.slots| < EXECUTION_SLOT_CAPACITY {
          GatesMeanMayStart(s, s1, id, d);
          StartWrites(cfg, s1, id, d);
          WritesTransitive(cfg, s, s1, Start(cfg, s1, id, d));
        }
      }
    }
  }

  lemma ScanWrites(cfg: Config, s: Store, rows: seq<JobId>, d: Dispatch)
    requires Core(cfg, s) && TreeInv(s)
    ensures Writes(cfg, s, Scan(cfg, s, rows, d).0)
    decreases |rows|
  {
    hide Core, TreeInv, Writes, ScanRow;
    if rows == [] {
      Unchanged(cfg, s);
    } else if rows[0] !in s.jobs {
      ScanWrites(cfg, s, rows[1..], d);
    } else {
      var (s1, started) := ScanRow(cfg, s, rows[0], d);
      ScanRowWrites(cfg, s, rows[0], d);
      ScanRowKeepsTree(cfg, s, rows[0], d);
      if !started {
        CoreOf(cfg, s, s1);
        ScanWrites(cfg, s1, rows[1..], d);
        WritesTransitive(cfg, s, s1, Scan(cfg, s1, rows[1..], d).0);
      }
    }
  }

  lemma ClaimWrites(cfg: Config, s: Store, rows: seq<JobId>, d: Dispatch)
    requires Core(cfg, s) && TreeInv(s)
    ensures Writes(cfg, s, Claim(cfg, s, rows, d).0)
  {
    assert SameTree(s, Reclaim(s, d));
    hide Core, TreeInv, Writes, Calm, Scan, Rooted, RootsKnown, Reclaim, SameTree;
    TreeFacts(s);
    ReclaimCalm(s, d);
    CalmWrites(cfg, s, Reclaim(s, d));
    CoreOf(cfg, s, Reclaim(s, d));
    SameTreeKeeps(s, Reclaim(s, d));
    ScanWrites(cfg, Reclaim(s, d), rows, d);
    WritesTransitive(cfg, s, Reclaim(s, d), Scan(cfg, Reclaim(s, d), rows, d).0);
  }

  lemma WakeAllWrites(cfg: Config, s: Store, waits: seq<(JobId, int)>, now: Time)
    requires Core(cfg, s) && TreeInv(s)
    ensures Writes(cfg, s, WakeAll(s, waits, now))
    decreases |waits|
  {
    hide Core, TreeInv, Writes, WakeOne;
    if waits == [] {
      Unchanged(cfg, s);
    } else {
      var s1 := WakeOne(s, waits[0].0, waits[0].1, now);
      WakeOneWrites(cfg, s, waits[0].0, waits[0].1, now);
      WakeOneKeepsTree(s, waits[0].0, waits[0].1, now);
      CoreOf(cfg, s, s1);
      WakeAllWrites(cfg, s1, waits[1..], now);
      WritesTransitive(cfg, s, s1, WakeAll(s1, waits[1..], now));
    }
  }

  // ----- reports -------------------------------------------------------------------

  /** A report written into the row of its running job, with or without a result packet. */
  ghost predicate ReportsRow(s: Store, t: Store, id: JobId) {
    && id in s.jobs && id in t.jobs && s.jobs[id].status.Running?
    && t == s.(jobs := s.jobs[id := t.jobs[id]], outbox := t.outbox)
    && (t.outbox == s.outbox || t.outbox == s.outbox + [Row(id, [])])
    && var x, y := s.jobs[id], t.jobs[id];
    && y.attempt == x.attempt && y.identity == x.identity && y.scope == x.scope && y.hints == x.hints
    && y.deadline == x.deadline
    && y.evidence == x.evidence && y.observations == x.observations
    && (y.result == x.result || (t.outbox == s.outbox + [Row(id, [])] && y.result == Some(|s.outbox|)))
    && FindingsObserved(y.findings, y.evidence) && Substantial(y)
  }

  lemma ReportLog(s: Store, t: Store, id: JobId)
    requires LogInv(s) && ReportsRow(s, t, id)
    ensures LedgerGrows(s, t) && JobLog(t.outbox, t.edges, t.childPackets, id, t.jobs[id])
  {
    hide PacketLogged, OutcomeOwned, OutboxOrdered, ChildEntry, Substantial, Owned;
    assert LedgerGrows(s, t);
    assert JobLog(s.outbox, s.edges, s.childPackets, id, s.jobs[id]);
    JobLogGrows(s, t, id, s.jobs[id]) by { hide JobLog, LedgerGrows; }
    var y := t.jobs[id];
    if y.result != s.jobs[id].result {
      assert Owned(t.outbox, [y.result.value], id) by { hide JobLog, LogInv; OneOwned(t.outbox, y.result.value, id); }
    }
  }

  lemma OneOwned(outbox: seq<Row>, p: PacketId, id: JobId)
    requires 0 <= p < |outbox| && outbox[p].job == id
    ensures Owned(outbox, [p], id)
  {
  }

  lemma ReportRows(s: Store, t: Store, id: JobId)
    requires ReportsRow(s, t, id)
    ensures OnlyRow(s, t, id) && WritesOnly(s, t, id) && Evolves(s, t) && Substantial(t.jobs[id])
    ensures t.checkpoints == s.checkpoints
  {
    hide Substantial, FindingsObserved;
  }

  lemma ReportWrites(cfg: Config, s: Store, t: Store, id: JobId)
    requires Core(cfg, s) && ReportsRow(s, t, id)
    ensures Writes(cfg, s, t)
  {
    hide ReportsRow, SlotsMatchJobs, SlotsBounded, AdmissionBounded, LogInv, CheckpointInv, IndexMatchesJobs,
      SuccessInv, Evolves, OnlyRow, WritesOnly, Substantial, JobLog;
    ReportLog(s, t, id);
    ReportRows(s, t, id);
    RowWriteKeepsCore(cfg, s, t, id);
  }

  /** The record a finish commits is backed by the log and by some substance. */
  ghost predicate GoodReport(job: Job, f: Report, status: Status) {
    && job.status.Running?
    && FindingsObserved(Reported(f.findings, job.findings), job.evidence)
    && (status.Completed? || status.Partial? ==>
         !Hollow(Reported(f.answer, job.answer), Reported(f.findings, job.findings), job.evidence))
  }

  lemma FinishedRow(cfg: Config, s: Store, id: JobId, f: Report, status: Status, late: Time)
    requires id in s.jobs && GoodReport(s.jobs[id], f, status)
    ensures ReportsRow(s, s.(jobs := s.jobs[id := FinishedJob(cfg, s.jobs[id], f, status, late)]), id)
    ensures ReportsRow(s,
      s.(jobs := s.jobs[id := FinishedJob(cfg, s.jobs[id], f, status, late).(result := Some(|s.outbox|))],
                             outbox := s.outbox + [Row(id, [])]), id)
  {
    hide FindingsObserved, Hollow, RetryDelay;
  }

  lemma CommitYieldWrites(cfg: Config, s: Store, id: JobId, f: Report, status: Status, acknowledged: bool, late: Time)
    requires Core(cfg, s) && Rooted(s.frames, s.edges, s.preparations) && id in s.jobs
    requires GoodReport(s.jobs[id], f, status)
    requires !status.Terminal()
    ensures Writes(cfg, s, CommitReport(cfg, s, id, f, status, acknowledged, late))
  {
    hide Core, Rooted, GoodReport, FinishedJob, ReportsRow, Writes, Calm, TrimIndex;
    var s1 := s.(jobs := s.jobs[id := FinishedJob(cfg, s.jobs[id], f, status, late)]);
    FinishedRow(cfg, s, id, f, status, late);
    ReportWrites(cfg, s, s1, id);
    CoreOf(cfg, s, s1);
    TrimCalm(s1);
    CalmWrites(cfg, s1, TrimIndex(s1));
    WritesTransitive(cfg, s, s1, TrimIndex(s1));
  }

  lemma AcknowledgeCalm(s: Store, id: JobId)
    ensures Calm(s, Acknowledge(s, id))
  {
    hide Calm;
    WaitsCalm(s, Acknowledge(s, id));
  }

  lemma EndedRowCalm(s: Store, id: JobId, ended: Job, status: Status, reason: Reason, now: Time)
    requires id in s.jobs && s.jobs[id] == ended && ended.status.Terminal()
    ensures Calm(s, EndTree(s, id, ended, Outcome(EndingOf(status, reason), ended.evidence, ended.result), now))
  {
    assert JobCalm(ended, ended)
      && OwnOutcome(Outcome(EndingOf(status, reason), ended.evidence, ended.result), ended) by { hide Calm, EndTree; }
    hide Calm, EndTree, JobCalm, OwnOutcome;
    EndTreeCalm(s, id, ended, Outcome(EndingOf(status, reason), ended.evidence, ended.result), now);
  }

  lemma CommitEndWrites(cfg: Config, s: Store, id: JobId, f: Report, status: Status, acknowledged: bool, late: Time)
    requires Core(cfg, s) && Rooted(s.frames, s.edges, s.preparations) && id in s.jobs
    requires GoodReport(s.jobs[id], f, status)
    requires status.Terminal()
    ensures Writes(cfg, s, CommitReport(cfg, s, id, f, status, acknowledged, late))
  {
    var ended := FinishedJob(cfg, s.jobs[id], f, status, late).(result := Some(|s.outbox|));
    assert ended.status.Terminal() by { hide Core, Rooted, GoodReport, CommitReport, RetryDelay; }
    hide Core, Rooted, GoodReport, FinishedJob, ReportsRow, Writes, Calm, TrimIndex, EndTree, Acknowledge, EndingOf;
    var s1 := s.(outbox := s.outbox + [Row(id, [])]);
    var s2 := s1.(jobs := s1.jobs[id := ended]);
    FinishedRow(cfg, s, id, f, status, late);
    assert s2 == s.(jobs := s.jobs[id := ended], outbox := s.outbox + [Row(id, [])]);
    ReportWrites(cfg, s, s2, id);
    CoreOf(cfg, s, s2);
    var outcome := Outcome(EndingOf(status, f.reason), ended.evidence, ended.result);
    var s3 := if acknowledged then Acknowledge(s2, id) else EndTree(s1, id, ended, outcome, late);
    AcknowledgeCalm(s2, id);
    EndedRowCalm(s2, id, ended, status, f.reason, late);
    EndTreeForgetsRow(s1, id, ended, ended, outcome, late);
    TrimCalm(s3);
    CalmTransitive(s2, s3, TrimIndex(s3));
    CalmWrites(cfg, s2, TrimIndex(s3));
    WritesTransitive(cfg, s, s2, TrimIndex(s3));
  }

  lemma FinishGivesGoodReport(s: Store, id: JobId, r: Report, now: Time, fits: bool)
    requires id in s.jobs && s.jobs[id].status.Running? && FinishCommits(s, id, r, now, fits)
    ensures var f := Forced(s, id, r, now);
      GoodReport(s.jobs[id], f, FinalStatus(s.jobs[id], f))
  {
    hide FindingsObserved, Hollow, AckNamesShownChild, FinishForced;
  }

  lemma FinishWrites(cfg: Config, s: Store, id: JobId, attempt: int, report: Report, now: Time, late: Time,
                     alive: set<Process>, fits: bool)
    requires Core(cfg, s) && TreeInv(s)
    ensures Writes(cfg, s, Finish(cfg, s, id, attempt, report, now, late, alive, fits).0)
  {
    hide Core, TreeInv, Rooted, RootsKnown, Writes, Calm, Forced, FinalStatus, Normalised, FinishCommits, CommitReport,
      FinishPrologue, GoodReport;
    var r := Normalised(report);
    if IsRunning(s, id, attempt, now, alive) && FinishCommits(s, id, r, now, fits) {
      var f := Forced(s, id, r, now);
      var status := FinalStatus(s.jobs[id], f);
      var s1 := FinishPrologue(s, id, r);
      FinishGivesGoodReport(s, id, r, now, fits);
      PrologueCalm(s, id, r);
      PrologueShape(s, id, r);
      PrologueKeepsTree(s, id, r);
      TreeFacts(s);
      TreeFacts(s1);
      CalmWrites(cfg, s, s1);
      CoreOf(cfg, s, s1);
      var t := CommitReport(cfg, s1, id, f, status, r.consumed.Some?, late);
      if status.Terminal() {
        CommitEndWrites(cfg, s1, id, f, status, r.consumed.Some?, late);
      } else {
        CommitYieldWrites(cfg, s1, id, f, status, r.consumed.Some?, late);
      }
      WritesTransitive(cfg, s, s1, t);
    } else {
      Unchanged(cfg, s);
    }
  }
}
