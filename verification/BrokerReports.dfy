/** What an accepted report stores: the reported fields, the status that the deadline, the
    failure count and the report's substance leave it, and where the frame goes. */
module BrokerReports {
  import opened Prelude
  import opened BrokerModel
  import opened BrokerSteps
  import opened BrokerInvariant
  import opened BrokerTree
  import opened BrokerTreeSteps
  import opened BrokerCalm
  import opened BrokerCalmSteps
  import opened BrokerSafety
  import opened BrokerEndings
  import opened BrokerWriteEffects

  /** A field is what was reported, or what it was if the report left it out. */
  ghost predicate Says<T>(field: Option<T>, before: T, now: T) {
    match field
    case Some(value) => now == value
    case None => now == before
  }

  /** The report comes after the deadline, or it is the third failure of the job's frame. */
  ghost predicate TooLate(x: Job, failures: int, r: Report, now: Time) {
    || (x.deadline.Some? && x.deadline.value <= now)
    || (failures >= 2 && r.status == Yielding
        && r.reason !in {SliceComplete, PrivateWaitProposed, PreemptionRequested, ForegroundPreemption, SessionEvicted,
                         StepBudget})
  }

  ghost predicate NoSubstance(y: Job) {
    Wordless(y.answer) && y.findings == [] && y.evidence == []
  }

  /** The status a job gets for a report; `y` is its record afterwards. */
  ghost predicate StatusFor(x: Job, y: Job, failures: int, r: Report, now: Time) {
    if TooLate(x, failures, r, now) then
      y.status == if !NoSubstance(y)
        && (x.answer != "" || x.findings != [] || x.evidence != []) then Partial else Failed
    else match r.status
      case Completed => y.status == if NoSubstance(y) then Failed else Completed
      case Partial => y.status == if NoSubstance(y) then Failed else Partial
      case Failed => y.status == Failed
      case Cancelled => y.status == Cancelled
      case Yielding =>
        y.status == if r.reason != StepBudget then Yielding else if NoSubstance(y) then Failed else Partial
      case QueuedAfterEviction => y.status == QueuedAfterEviction
      case _ => false
  }

  /** The whole record of a job after its report. */
  ghost predicate RecordFor(cfg: Config, x: Job, y: Job, failures: int, r: Report, now: Time, late: Time,
                            row: PacketId) {
    && Says(r.answer, x.answer, y.answer) && Says(r.findings, x.findings, y.findings)
    && StatusFor(x, y, failures, r, now)
    && y.attempt == x.attempt && y.evidence == x.evidence && y.observations == x.observations
    && y.scope == x.scope && y.hints == x.hints && y.deadline == x.deadline && y.identity == x.identity
    && y.lease == 0.0 && y.updated == late
    && y.result == (if y.status.Terminal() then Some(row) else x.result)
    && y.reason == (if !y.status.Terminal() then x.reason else ReasonFor(x, failures, r, now))
    && y.available == late + DelayFor(cfg, x, ReasonFor(x, failures, r, now))
  }

  ghost function ReasonFor(x: Job, failures: int, r: Report, now: Time): Reason {
    if TooLate(x, failures, r, now) then AttemptOrDeadlineExhausted
    else if r.status == Yielding && r.reason == StepBudget then StepBudgetExhausted
    else r.reason
  }

  /** A slice that ended on purpose goes on at once; otherwise the configured delay, or five
      seconds after the first attempt and fifteen after later ones. */
  ghost function DelayFor(cfg: Config, x: Job, reason: Reason): Time {
    if reason == SliceComplete || reason == PrivateWaitProposed then 0.0
    else match cfg.retrySeconds
      case Some(seconds) => seconds
      case None => if x.attempt == 1 then 5.0 else 15.0
  }

  lemma ForcedIs(s: Store, id: JobId, report: Report, now: Time)
    requires id in s.jobs && id in s.frames
    ensures var r := Normalised(report);
      var x, n := s.jobs[id], s.frames[id].failures;
      && (FinishForced(s, id, r, now) <==> TooLate(x, n, report, now))
      && Forced(s, id, r, now).reason == ReasonFor(x, n, report, now)
      && (r.answer == report.answer && r.findings == report.findings && r.consumed == report.consumed)
  {
  }

  lemma RecordIs(cfg: Config, s: Store, id: JobId, report: Report, now: Time, late: Time, fits: bool)
    requires id in s.jobs && id in s.frames && FinishCommits(s, id, Normalised(report), now, fits)
    ensures var r := Normalised(report);
      var f := Forced(s, id, r, now);
      var status := FinalStatus(s.jobs[id], f);
      var job := FinishedJob(cfg, s.jobs[id], f, status, late);
      RecordFor(cfg, s.jobs[id], if status.Terminal() then job.(result := Some(|s.outbox|)) else job,
        s.frames[id].failures, report, now, late, |s.outbox|)
  {
    BlankIsWordless();
    hide AckNamesShownChild, FindingsObserved, Blank, Wordless;
  }

  // ----- which reports are committed ------------------------------------------------

  /** The report will be the job's last. */
  ghost predicate Ends(x: Job, failures: int, r: Report, now: Time) {
    || TooLate(x, failures, r, now) || r.status in {Completed, Partial, Failed, Cancelled}
    || (r.status == Yielding && r.reason == StepBudget)
  }

  /** The worker was shown the result of its finished child. */
  ghost predicate ResultShown(s: Store, id: JobId) {
    && id in s.frames && id in s.waits && |s.waits[id]| == 1
    && !s.waits[id][0].state.WaitRetired? && !s.waits[id][0].consumed
    && s.waits[id][0].child in s.frames && s.frames[s.waits[id][0].child].state.FrameEnded?
  }

  ghost predicate Cites(findings: seq<Finding>, evidence: seq<PacketId>) {
    forall f, p :: f in findings && p in f.evidence ==> p in evidence
  }

  /** A known status, citations of the job's own evidence, an acknowledgement of exactly the
      child whose result was shown, and room for the result packet. */
  ghost predicate MayReport(s: Store, id: JobId, r: Report, now: Time, fits: bool)
    requires id in s.jobs && id in s.frames
  {
    var last := Ends(s.jobs[id], s.frames[id].failures, r, now);
    && r.status in {Completed, Partial, Failed, Cancelled, Yielding, QueuedAfterEviction}
    && Cites(if r.findings.Some? then r.findings.value else s.jobs[id].findings, s.jobs[id].evidence)
    && (r.consumed.Some? ==>
          && ResultShown(s, id) && r.consumed.value != []
          && (forall c :: c in r.consumed.value ==> c == s.waits[id][0].child)
          && (last ==> |r.consumed.value| == 1))
    && (last ==> fits)
  }

  lemma ShownIs(s: Store, id: JobId)
    requires TreeInv(s)
    ensures ShownChild(s, id).Some? <==> ResultShown(s, id)
    ensures ResultShown(s, id) ==> ShownChild(s, id) == Some(s.waits[id][0].child)
  {
    assert id in s.waits ==> |s.waits[id]| == 1 by {
      hide EdgesMatchWaits, FramesMatchWaits, FramesMatchJobs, DepthBounded, Rooted, NoOrphans, OnePreparation;
    }
    hide TreeInv;
  }

  lemma LastIs(s: Store, id: JobId, report: Report, now: Time)
    requires id in s.jobs && id in s.frames
    ensures var r := Normalised(report);
      var status := FinalStatus(s.jobs[id], Forced(s, id, r, now));
      && (report.status in {Completed, Partial, Failed, Cancelled, Yielding, QueuedAfterEviction} <==>
            r.status.Terminal() || r.status.Yielding? || r.status.QueuedAfterEviction?)
      && (report.status in {Completed, Partial, Failed, Cancelled, Yielding, QueuedAfterEviction} ==>
            (status.Terminal() <==> Ends(s.jobs[id], s.frames[id].failures, report, now)))
  {
    hide Hollow;
  }

  lemma CommitsIs(s: Store, id: JobId, report: Report, now: Time, fits: bool)
    requires TreeInv(s) && id in s.jobs && id in s.frames
    ensures FinishCommits(s, id, Normalised(report), now, fits) <==> MayReport(s, id, report, now, fits)
  {
    ShownIs(s, id);
    LastIs(s, id, report, now);
    ForcedIs(s, id, report, now);
    assert FindingsObserved(Reported(report.findings, s.jobs[id].findings), s.jobs[id].evidence) <==>
      Cites(if report.findings.Some? then report.findings.value else s.jobs[id].findings, s.jobs[id].evidence);
    hide TreeInv, ShownChild, ResultShown, FinalStatus, Forced, Ends, Normalised, FindingsObserved, Cites;
  }

  // ----- what a committed report leaves ---------------------------------------------

  /** A yield that counts against the frame. */
  ghost predicate Fails(r: Report) {
    && r.status == Yielding
    && r.reason !in {SliceComplete, PrivateWaitProposed, PreemptionRequested, ForegroundPreemption, SessionEvicted,
                     StepBudget}
  }

  /** Before the record is written: one failure counted, and a shown result kept for good. */
  ghost predicate Counted(s: Store, m: Store, id: JobId, r: Report)
    requires id in s.frames
  {
    && m == s.(frames := m.frames, waits := m.waits)
    && m.frames == s.frames[id := s.frames[id].(failures := s.frames[id].failures + if Fails(r) then 1 else 0)]
    && m.waits == if ResultShown(s, id) then s.waits[id := [s.waits[id][0].(state := WaitReady)]] else s.waits
  }

  ghost function EndingFor(y: Job): Outcome {
    Outcome(if y.reason in {DeadlineExhausted, AttemptOrDeadlineExhausted} then Expired else EndedAs(y.status),
            y.evidence, y.result)
  }

  /** The record `y` is written. A last one adds its result packet, and either acknowledges the
      child whose result it used or ends the job's frame and everything below it. */
  ghost predicate Written(m: Store, t: Store, id: JobId, y: Job, r: Report, late: Time) {
    && id in t.jobs && t.jobs[id] == y
    && if !y.status.Terminal() then IndexTrimmed(m.(jobs := m.jobs[id := y]), t)
       else
         var m1 := m.(outbox := m.outbox + [Row(id, [])]);
         if r.consumed.Some? then
           id in m.waits && |m.waits[id]| == 1
           && IndexTrimmed(m1.(jobs := m.jobs[id := y], waits := m.waits[id := [m.waits[id][0].(acked := true)]]), t)
         else EndedAndTrimmed(m1, t, id, y, EndingFor(y), late)
  }

  lemma PrologueCounts(s: Store, id: JobId, report: Report)
    requires TreeInv(s) && id in s.jobs && id in s.frames
    ensures Counted(s, FinishPrologue(s, id, Normalised(report)), id, report)
    ensures TreeInv(FinishPrologue(s, id, Normalised(report)))
  {
    hide *;
    var r := Normalised(report);
    var s1 := CountFailure(s, id, r);
    PrologueKeepsTree(s, id, r);
    OneWaitOf(s, id);
    FailsIs(s, id, report);
    PrologueIs(s, id, r);
    CountOnly(s, id, r);
    SameStates(s, s1, id);
    MarkShown(s, s1, id);
    CountedFrom(s, s1, FinishPrologue(s, id, r), id, report);
  }

  lemma SameStates(s: Store, s1: Store, id: JobId)
    requires id in s.frames && exists n :: s1.frames == s.frames[id := s.frames[id].(failures := n)]
    ensures s1.frames.Keys == s.frames.Keys && forall x :: x in s.frames ==> s1.frames[x].state == s.frames[x].state
  {
  }

  lemma CountedFrom(s: Store, s1: Store, m: Store, id: JobId, r: Report)
    requires id in s.frames && s1 == s.(frames := s1.frames) && m == s1.(waits := m.waits)
    requires s1.frames == s.frames[id := s.frames[id].(failures := s.frames[id].failures + if Fails(r) then 1 else 0)]
    requires m.waits == if ResultShown(s, id) then s.waits[id := [s.waits[id][0].(state := WaitReady)]] else s.waits
    ensures Counted(s, m, id, r)
  {
    hide Fails;
  }

  lemma FailsIs(s: Store, id: JobId, report: Report)
    requires id in s.frames
    ensures CountsAsFailure(s, id, Normalised(report)) <==> Fails(report)
  {
  }

  lemma PrologueIs(s: Store, id: JobId, r: Report)
    requires id in s.frames
    ensures FinishPrologue(s, id, r) == MarkReady(CountFailure(s, id, r), id, WaitCount(CountFailure(s, id, r), id))
  {
    hide MarkReady, WaitCount;
  }

  lemma OneWaitOf(s: Store, id: JobId)
    requires TreeInv(s)
    ensures id in s.waits ==> |s.waits[id]| == 1
  {
    hide EdgesMatchWaits, FramesMatchWaits, FramesMatchJobs, DepthBounded, Rooted, NoOrphans, OnePreparation;
  }

  lemma CountOnly(s: Store, id: JobId, r: Report)
    requires id in s.frames
    ensures var s1 := CountFailure(s, id, r);
      && s1 == s.(frames := s1.frames)
      && s1.frames == s.frames[id := s.frames[id].(failures := s.frames[id].failures + if CountsAsFailure(s, id, r)
        then 1 else 0)]
  {
    hide CountsAsFailure;
    assert s.frames[id := s.frames[id].(failures := s.frames[id].failures + 0)] == s.frames;
  }

  lemma MarkShown(s: Store, s1: Store, id: JobId)
    requires id in s.frames && (id in s.waits ==> |s.waits[id]| == 1) && s1 == s.(frames := s1.frames)
    requires s1.frames.Keys == s.frames.Keys && forall x :: x in s.frames ==> s1.frames[x].state == s.frames[x].state
    ensures var m := MarkReady(s1, id, WaitCount(s1, id));
      && m == s1.(waits := m.waits)
      && m.waits == if ResultShown(s, id) then s.waits[id := [s.waits[id][0].(state := WaitReady)]] else s.waits
  {
    if ResultShown(s, id) {
      var w := s.waits[id][0].(state := WaitReady);
      assert s.waits[id][0 := w] == [w];
    }
  }

  lemma ReportWritten(cfg: Config, m: Store, id: JobId, f: Report, status: Status, r: Report, late: Time)
    requires TreeInv(m) && id in m.jobs && id in m.frames && (r.consumed.Some? && status.Terminal() ==> id in m.waits)
    requires f.consumed == r.consumed
    ensures var job := FinishedJob(cfg, m.jobs[id], f, status, late);
      var y := if status.Terminal() then job.(result := Some(|m.outbox|)) else job;
      Written(m, CommitReport(cfg, m, id, f, status, r.consumed.Some?, late), id, y, r, late)
  {
    OneWaitOf(m, id);
    CommitIs(cfg, m, id, f, status, r.consumed.Some?, late);
    FinishedFields(cfg, m.jobs[id], f, status, late);
    hide TreeInv, CommitReport, FinishedJob, Written, TrimIndex, EndTree, EndingOf, EndingFor, Acknowledge;
    var job := FinishedJob(cfg, m.jobs[id], f, status, late);
    if !status.Terminal() {
      WrittenYield(m, id, job, r, late);
    } else if r.consumed.Some? {
      WrittenAcknowledged(m, id, job.(result := Some(|m.outbox|)), r, late);
    } else {
      WrittenEnd(m, id, job.(result := Some(|m.outbox|)), r, late);
    }
  }

  lemma WrittenYield(m: Store, id: JobId, y: Job, r: Report, late: Time)
    requires id in m.jobs && !y.status.Terminal()
    ensures Written(m, TrimIndex(m.(jobs := m.jobs[id := y])), id, y, r, late)
  {
    hide TrimIndex, IndexTrimmed;
    TrimMeans(m.(jobs := m.jobs[id := y]));
    TrimOnlyIndex(m.(jobs := m.jobs[id := y]));
  }

  lemma WrittenAcknowledged(m: Store, id: JobId, y: Job, r: Report, late: Time)
    requires id in m.jobs && y.status.Terminal() && r.consumed.Some? && id in m.waits && |m.waits[id]| == 1
    ensures var m1 := m.(outbox := m.outbox + [Row(id, [])]);
      Written(m, TrimIndex(Acknowledge(m1.(jobs := m1.jobs[id := y]), id)), id, y, r, late)
  {
    hide TrimIndex, IndexTrimmed, Acknowledge;
    var m1 := m.(outbox := m.outbox + [Row(id, [])]);
    AcknowledgedIs(m1.(jobs := m1.jobs[id := y]), id);
    TrimMeans(Acknowledge(m1.(jobs := m1.jobs[id := y]), id));
    TrimOnlyIndex(Acknowledge(m1.(jobs := m1.jobs[id := y]), id));
  }

  lemma WrittenEnd(m: Store, id: JobId, y: Job, r: Report, late: Time)
    requires TreeInv(m) && id in m.jobs && id in m.frames && y.status.Terminal() && r.consumed.None?
    ensures var m1 := m.(outbox := m.outbox + [Row(id, [])]);
      Written(m, TrimIndex(EndTree(m1, id, y, EndingFor(y), late)), id, y, r, late)
  {
    hide TreeInv, EndTree, TrimIndex, EndingFor, EndedAndTrimmed;
    var m1 := m.(outbox := m.outbox + [Row(id, [])]);
    assert TreeInv(m1) by { SameTreeKeeps(m, m1); }
    EndThenTrim(m1, id, y, EndingFor(y), late);
    TrimmedRow(m1, id, y, late);
  }

  lemma TrimmedRow(m1: Store, id: JobId, y: Job, late: Time)
    requires TreeInv(m1) && id in m1.jobs && id in m1.frames
    ensures var t := TrimIndex(EndTree(m1, id, y, EndingFor(y), late)); id in t.jobs && t.jobs[id] == y
  {
    TreeDepth(m1);
    hide TreeInv, EndTree, TrimIndex, EndingFor, DepthBounded;
    EndTreeSetsRow(m1, id, y, EndingFor(y), late);
    TrimOnlyIndex(EndTree(m1, id, y, EndingFor(y), late));
  }

  lemma FinishedFields(cfg: Config, x: Job, f: Report, status: Status, late: Time)
    ensures var job := FinishedJob(cfg, x, f, status, late);
      && job.status == status && job.evidence == x.evidence
      && (status.Terminal() ==>
            forall result :: Outcome(EndingOf(status, f.reason), job.evidence,
              result) == EndingFor(job.(result := result)))
  {
    hide RetryDelay;
  }

  lemma AcknowledgedIs(s: Store, id: JobId)
    requires id in s.waits && |s.waits[id]| == 1
    ensures Acknowledge(s, id) == s.(waits := s.waits[id := [s.waits[id][0].(acked := true)]])
  {
    var w := s.waits[id][0].(acked := true);
    assert s.waits[id][0 := w] == [w];
  }

  /** A report is accepted exactly behind the fence and if it may be committed; then its record
      is written over the store with the failure counted. */
  lemma ReportIsCommitted(cfg: Config, s: Store, id: JobId, attempt: int, report: Report, now: Time, late: Time,
                          alive: set<Process>, fits: bool)
    requires TreeInv(s)
    ensures var (t, accepted) := Finish(cfg, s, id, attempt, report, now, late, alive, fits);
      && (accepted <==> HoldsFence(s, id, attempt, now, alive) && id in s.frames && MayReport(s, id, report, now, fits))
      && (!accepted ==> t == s)
      && (accepted ==>
           exists m :: Counted(s, m, id, report) && id in t.jobs && Written(m, t, id, t.jobs[id], report, late))
      && (accepted ==> RecordFor(cfg, s.jobs[id], t.jobs[id], s.frames[id].failures, report, now, late, |s.outbox|))
  {
    FenceIs(s, id, attempt, now, alive);
    LiveHaveFrames(s);
    hide TreeInv, HoldsFence, MayReport, FinishCommits, CommitReport, FinishPrologue, Written, Counted, RecordFor;
    if IsRunning(s, id, attempt, now, alive) {
      CommitsIs(s, id, report, now, fits);
      if FinishCommits(s, id, Normalised(report), now, fits) {
        ReportCommitted(cfg, s, id, report, now, late, fits);
      }
    }
  }

  lemma ReportCommitted(cfg: Config, s: Store, id: JobId, report: Report, now: Time, late: Time, fits: bool)
    requires TreeInv(s) && id in s.jobs && id in s.frames && FinishCommits(s, id, Normalised(report), now, fits)
    ensures var r := Normalised(report);
      var f := Forced(s, id, r, now);
      var m := FinishPrologue(s, id, r);
      && id in m.jobs
      && var t := CommitReport(cfg, m, id, f, FinalStatus(s.jobs[id], f), r.consumed.Some?, late);
      && Counted(s, m, id, report) && id in t.jobs && Written(m, t, id, t.jobs[id], report, late)
      && RecordFor(cfg, s.jobs[id], t.jobs[id], s.frames[id].failures, report, now, late, |s.outbox|)
  {
    var r := Normalised(report);
    var f := Forced(s, id, r, now);
    var status := FinalStatus(s.jobs[id], f);
    ForcedIs(s, id, report, now);
    CommitsIs(s, id, report, now, fits);
    AckedHasWait(s, id, report, now, fits);
    PrologueCounts(s, id, report);
    RecordIs(cfg, s, id, report, now, late, fits);
    ForcedKeepsFields(s, id, r, now);
    var m := FinishPrologue(s, id, r);
    CountedKeeps(s, m, id, report);
    hide TreeInv, MayReport, FinishCommits, CommitReport, FinishPrologue, FinalStatus, Forced, Normalised, FinishedJob,
      Counted, RecordFor;
    ReportWritten(cfg, m, id, f, status, report, late);
    hide IndexTrimmed, EndedAndTrimmed;
  }

  lemma ForcedKeepsFields(s: Store, id: JobId, r: Report, now: Time)
    requires id in s.jobs
    ensures Forced(s, id, r, now).consumed == r.consumed
  {
  }

  lemma AckedHasWait(s: Store, id: JobId, r: Report, now: Time, fits: bool)
    requires id in s.jobs && id in s.frames && MayReport(s, id, r, now, fits)
    ensures r.consumed.Some? ==> id in s.waits
  {
    hide Ends, Cites;
  }

  lemma CountedKeeps(s: Store, m: Store, id: JobId, r: Report)
    requires id in s.frames && Counted(s, m, id, r)
    ensures m.jobs == s.jobs && m.outbox == s.outbox && m.frames.Keys == s.frames.Keys && s.waits.Keys <= m.waits.Keys
  {
    hide Fails;
  }
}
