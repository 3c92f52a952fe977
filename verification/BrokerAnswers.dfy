/** At most fifty answered identities stay indexed: a step either trims the index or brings
    no new answer into it. */
module BrokerAnswers {
  import opened Prelude
  import opened BrokerModel
  import opened BrokerSteps
  import opened BrokerInvariant
  import opened BrokerTree
  import opened BrokerTreeSteps
  import opened BrokerCalm
  import opened BrokerCalmSteps
  import opened BrokerWrites
  import opened BrokerWriteSteps
  import opened BrokerStarts
  import opened BrokerClaims

  ghost predicate Fifty(s: Store) {
    |AnsweredSet(s)| <= INDEX_CAPACITY
  }

  /** Every indexed success was there before, unchanged. */
  ghost predicate Quiet(s: Store, t: Store) {
    forall i :: i in t.index && t.index[i] in t.jobs && Success(t.jobs[t.index[i]]) ==>
      i in s.index && s.index[i] == t.index[i] && s.index[i] in s.jobs && s.jobs[s.index[i]] == t.jobs[t.index[i]]
  }

  /** The row-wise reason to be quiet. */
  ghost predicate NoNewSuccess(a: map<JobId, Job>, b: map<JobId, Job>) {
    forall x :: x in b && Success(b[x]) ==> x in a && a[x] == b[x]
  }

  lemma QuietRows(s: Store, t: Store)
    requires NoNewSuccess(s.jobs, t.jobs) && forall i :: i in t.index ==> i in s.index && t.index[i] == s.index[i]
    ensures Quiet(s, t)
  {
  }

  lemma QuietTransitive(s: Store, t: Store, u: Store)
    requires Quiet(s, t) && Quiet(t, u)
    ensures Quiet(s, u)
  {
  }

  lemma QuietKeepsFifty(s: Store, t: Store)
    requires Quiet(s, t) && Fifty(s)
    ensures Fifty(t)
  {
    assert AnsweredSet(t) <= AnsweredSet(s) by {
      forall i | i in AnsweredSet(t)
        ensures i in AnsweredSet(s)
      {
        assert Success(t.jobs[t.index[i]]);
      }
    }
    hide AnsweredSet, Quiet;
    SubsetSize(AnsweredSet(t), AnsweredSet(s));
  }

  lemma FaithfulIndex(s: Store)
    requires IndexMatchesJobs(s.jobs, s.index)
    ensures IndexFaithful(s)
  {
  }

  lemma TrimmedFifty(s: Store)
    requires IndexMatchesJobs(s.jobs, s.index)
    ensures Fifty(TrimIndex(s))
  {
    FaithfulIndex(s);
    hide TrimIndex, IndexMatchesJobs, AnsweredSet, IndexFaithful;
    TrimBounds(s);
  }

  // ----- steps that bring no answer ------------------------------------------------

  lemma SubmitQuiet(cfg: Config, s: Store, r: Request, now: Time)
    requires r.id !in s.jobs
    ensures Quiet(s, Submit(cfg, s, r, now).0)
  {
    hide RefreshedHints, CacheReply, PublicLoad;
  }

  lemma EndTreeQuiet(s: Store, id: JobId, ended: Job, outcome: Outcome, now: Time)
    requires id in s.jobs && ended.status.Cancelled?
    ensures Quiet(s, EndTree(s, id, ended, outcome, now))
  {
    var t := EndTree(s, id, ended, outcome, now);
    EndTreeRows(s, id, ended, outcome, now) by { hide Quiet, CancelJobs, Descendants; }
    hide EndTree, Descendants, Quiet;
    assert NoNewSuccess(s.jobs, t.jobs);
    hide CancelJobs, NoNewSuccess;
    QuietRows(s, t);
  }

  lemma CancelAllQuiet(s: Store, order: seq<JobId>, reason: Reason, now: Time)
    ensures Quiet(s, CancelAll(s, order, reason, now))
    decreases |order|
  {
    if order != [] {
      hide EndTree, Quiet;
      var id := order[0];
      if Live(s, id) {
        var s1 := EndTree(s, id, CancelledJob(s.jobs[id], reason, now), Outcome(EndedAs(Cancelled), [], None), now);
        EndTreeQuiet(s, id, CancelledJob(s.jobs[id], reason, now), Outcome(EndedAs(Cancelled), [], None), now);
        CancelAllQuiet(s1, order[1..], reason, now);
        QuietTransitive(s, s1, CancelAll(s1, order[1..], reason, now));
      } else {
        CancelAllQuiet(s, order[1..], reason, now);
      }
    }
  }

  lemma PrepareQuiet(s: Store, id: JobId, scope: Scope, work: Identity, deadline: Time, now: Time,
                     permitted: bool, fitsStorage: bool, stale: seq<JobId>)
    ensures Quiet(s, Prepare(s, id, scope, work, deadline, now, permitted, fitsStorage, stale).0)
  {
    QuietRows(s, s);
    hide CancelAll, Quiet;
    if deadline > now && permitted && !exists j :: j in s.preparations && s.preparations[j] == work {
      var s1 := CancelAll(s, stale, Other("preparation_source_changed"), now);
      CancelAllQuiet(s, stale, Other("preparation_source_changed"), now);
      if fitsStorage {
        var t := s1.(jobs := s1.jobs[id := NewJob(scope, [], deadline, None, now)],
                     frames := s1.frames[id := RootFrame(id, deadline, true)],
                     preparations := s1.preparations[id := work]);
        QuietRows(s1, t);
        QuietTransitive(s, s1, t);
      }
    }
  }

  lemma RequeueQuiet(s: Store, id: JobId, now: Time)
    requires Live(s, id)
    ensures Quiet(s, Requeue(s, id, now))
  {
    RequeueShape(s, id, now) by { hide Quiet; }
    var t := Requeue(s, id, now);
    assert !Success(t.jobs[id]);
    hide Requeue, Quiet;
    QuietRows(s, t);
  }

  lemma StartQuiet(cfg: Config, s: Store, id: JobId, d: Dispatch)
    requires Live(s, id)
    ensures Quiet(s, Start(cfg, s, id, d))
  {
    hide Quiet;
    QuietRows(s, Start(cfg, s, id, d));
  }

  lemma HeartbeatQuiet(cfg: Config, s: Store, id: JobId, attempt: int, now: Time)
    ensures Quiet(s, Heartbeat(cfg, s, id, attempt, now))
  {
    hide Quiet;
    QuietRows(s, Heartbeat(cfg, s, id, attempt, now));
  }

  lemma ObserveQuiet(cfg: Config, s: Store, id: JobId, attempt: int, text: string, now: Time, alive: set<Process>,
                     fits: bool)
    ensures Quiet(s, Observe(cfg, s, id, attempt, text, now, alive, fits).0)
  {
    hide Quiet;
    QuietRows(s, Observe(cfg, s, id, attempt, text, now, alive, fits).0);
  }

  lemma CheckpointQuiet(cfg: Config, s: Store, id: JobId, attempt: int, frames: seq<Observation>,
                        scope: Option<Scope>, now: Time, alive: set<Process>, fits: bool)
    ensures Quiet(s, WriteCheckpoint(cfg, s, id, attempt, frames, scope, now, alive, fits).0)
  {
    hide Quiet, CheckpointAccepted;
    QuietRows(s, WriteCheckpoint(cfg, s, id, attempt, frames, scope, now, alive, fits).0);
  }

  lemma PrivateWaitQuiet(s: Store, id: JobId, attempt: int, child: JobId, now: Time, alive: set<Process>, room: bool)
    ensures Quiet(s, PrivateWait(s, id, attempt, child, now, alive, room).0)
  {
    hide Quiet, WaitCount, HasWait, WaitAt;
    QuietRows(s, PrivateWait(s, id, attempt, child, now, alive, room).0);
  }

  lemma WakeOneQuiet(s: Store, p: JobId, g: int, now: Time)
    ensures Quiet(s, WakeOne(s, p, g, now))
  {
    QuietRows(s, s);
    hide Quiet, ChildRefs, ChildEnded;
    if OutcomeReady(s, p, g) {
      var s1 := MarkReady(s, p, g);
      MarkReadyShape(s, p, g);
      hide MarkReady, OutcomeReady;
      QuietRows(s, s1);
      if Live(s1, p) {
        QuietRows(s1, WakeOne(s, p, g, now));
        QuietTransitive(s, s1, WakeOne(s, p, g, now));
      }
    }
  }

  lemma WakeAllQuiet(s: Store, waits: seq<(JobId, int)>, now: Time)
    ensures Quiet(s, WakeAll(s, waits, now))
    decreases |waits|
  {
    if waits != [] {
      hide Quiet, WakeOne;
      var s1 := WakeOne(s, waits[0].0, waits[0].1, now);
      WakeOneQuiet(s, waits[0].0, waits[0].1, now);
      WakeAllQuiet(s1, waits[1..], now);
      QuietTransitive(s, s1, WakeAll(s1, waits[1..], now));
    }
  }

  ghost predicate SameRows(s: Store, t: Store) {
    t.jobs == s.jobs && t.index == s.index
  }

  lemma SameRowsQuiet(s: Store, t: Store)
    requires SameRows(s, t)
    ensures Quiet(s, t)
  {
  }

  lemma ConsumeOneRows(s: Store, p: JobId, g: int, now: Time)
    ensures SameRows(s, ConsumeOne(s, p, g, now))
  {
    hide MarkReady, OutcomeReady, EndFrame;
    var s1 := MarkReady(s, p, g);
    MarkReadyShape(s, p, g);
    if p !in s.slots && ConsumeReady(s1, p, g) {
      var w := WaitAt(s1, p, g);
      var s2 := PutWait(s1, p, g, w.(consumed := true, acked := false));
      var s3 := ResumeFrame(s2, p);
      assert SameRows(s2, s3);
      hide ResumeFrame, PutWait;
      assert SameRows(s3, EndOwnFrame(DropFrame(s3, w.child), p, now));
    }
  }

  lemma ConsumeAllRows(s: Store, waits: seq<(JobId, int)>, now: Time)
    ensures SameRows(s, ConsumeAll(s, waits, now))
    decreases |waits|
  {
    if waits != [] {
      ConsumeOneRows(s, waits[0].0, waits[0].1, now) by { hide SameRows; }
      hide ConsumeOne;
      ConsumeAllRows(ConsumeOne(s, waits[0].0, waits[0].1, now), waits[1..], now);
    }
  }

  lemma RetireAllRows(s: Store, waits: seq<(JobId, int)>)
    ensures SameRows(s, RetireAll(s, waits))
    decreases |waits|
  {
    if waits != [] {
      assert SameRows(s, RetireOne(s, waits[0].0, waits[0].1)) by { hide RetireReady; }
      hide RetireOne;
      RetireAllRows(RetireOne(s, waits[0].0, waits[0].1), waits[1..]);
    }
  }

  lemma SettleWaitsQuiet(s: Store, acked: seq<(JobId, int)>, unread: seq<(JobId, int)>, now: Time)
    ensures Quiet(s, SettleWaits(s, acked, unread, now))
  {
    hide ConsumeAll, RetireAll, Quiet;
    ConsumeAllRows(s, acked, now);
    RetireAllRows(ConsumeAll(s, acked, now), unread);
    SameRowsQuiet(s, SettleWaits(s, acked, unread, now));
  }

  lemma CleanupQuiet(s: Store, id: JobId, attempt: int, failed: bool)
    ensures Quiet(s, Cleanup(s, id, attempt, failed))
  {
    hide Quiet, ReleasesParent;
    assert SameRows(s, KeepFailedSlot(s, id, attempt)) && SameRows(s, FreeSlot(s, id, attempt)) && SameRows(s, s);
    hide KeepFailedSlot, FreeSlot;
    assert SameRows(FreeSlot(s, id, attempt), ReleaseParent(FreeSlot(s, id, attempt), id));
    hide ReleaseParent;
    SameRowsQuiet(s, Cleanup(s, id, attempt, failed));
  }

  lemma WorkersQuiet(s: Store, lost: set<(JobId, int)>)
    ensures Quiet(s, LoseWorkers(s, lost))
  {
    hide Quiet;
    SameRowsQuiet(s, LoseWorkers(s, lost));
  }

  lemma ReconcileQuiet(s: Store, id: JobId, attempt: int, owner: Process, alive: set<Process>, proved: bool)
    ensures Quiet(s, ReconcileStaleSlot(s, id, attempt, owner, alive, proved).0)
  {
    hide Quiet;
    SameRowsQuiet(s, ReconcileStaleSlot(s, id, attempt, owner, alive, proved).0);
  }

  lemma ReleaseFailedQuiet(s: Store, expected: map<JobId, Reason>, delivered: set<JobId>)
    ensures Quiet(s, ReleaseFailed(s, expected, delivered))
  {
    hide Quiet, ReleasesFailure;
    QuietRows(s, ReleaseFailed(s, expected, delivered));
  }

  lemma CancelPreparationQuiet(s: Store, id: JobId, scope: Scope, now: Time)
    ensures Quiet(s, CancelPreparation(s, id, scope, now).0)
  {
    QuietRows(s, s);
    hide EndTree, Quiet;
    if Live(s, id) {
      EndTreeQuiet(s, id, CancelledJob(s.jobs[id], Other("operator_cancelled"), now),
        Outcome(EndedAs(Cancelled), [], None), now);
    }
  }

  // ----- steps that trim -----------------------------------------------------------

  lemma RetireFifty(s: Store, id: JobId, now: Time)
    requires IndexMatchesJobs(s.jobs, s.index) && Live(s, id)
    ensures Fifty(Retire(s, id, now))
  {
    var job := RetiredJob(s.jobs[id], now);
    var s1 := s.(jobs := s.jobs[id := job]);
    assert JobCalm(s.jobs[id], job);
    hide IndexMatchesJobs, TrimIndex, Fifty, Calm, JobCalm;
    RowCalm(s, id, job);
    CalmKeepsIndex(s, s1);
    TrimmedFifty(s1);
  }

  lemma ScanFifty(cfg: Config, s: Store, rows: seq<JobId>, d: Dispatch)
    requires Core(cfg, s) && TreeInv(s) && Fifty(s)
    ensures Fifty(Scan(cfg, s, rows, d).0)
    decreases |rows|
  {
    hide Core, TreeInv, Writes, ScanRow, Fifty;
    if rows != [] {
      if rows[0] !in s.jobs {
        ScanFifty(cfg, s, rows[1..], d);
      } else {
        var s1 := ScanRow(cfg, s, rows[0], d).0;
        ScanRowFifty(cfg, s, rows[0], d);
        ScanRowWrites(cfg, s, rows[0], d);
        ScanRowKeepsTree(cfg, s, rows[0], d);
        CoreOf(cfg, s, s1);
        ScanFifty(cfg, s1, rows[1..], d);
      }
    }
  }

  lemma ScanRowFifty(cfg: Config, s: Store, id: JobId, d: Dispatch)
    requires Core(cfg, s) && TreeInv(s) && Fifty(s) && id in s.jobs
    ensures Fifty(ScanRow(cfg, s, id, d).0)
  {
    hide Core, TreeInv, Rooted, RootsKnown, Fifty, Quiet, FrameGate, DispatchGate, Requeue, Retire, Start, Exhausted,
      Calm, IndexMatchesJobs;
    if Live(s, id) && FrameGate(s, id, d.now) {
      var s1 := Requeue(s, id, d.now);
      RequeueShape(s, id, d.now);
      RequeueQuiet(s, id, d.now);
      QuietKeepsFifty(s, s1);
      RequeueCalm(s, id, d.now);
      IndexOfCore(cfg, s);
      CalmKeepsIndex(s, s1);
      RetireFifty(s1, id, d.now);
      StartQuiet(cfg, s1, id, d);
      QuietKeepsFifty(s1, Start(cfg, s1, id, d));
    }
  }

  lemma ClaimFifty(cfg: Config, s: Store, rows: seq<JobId>, d: Dispatch)
    requires Core(cfg, s) && TreeInv(s) && Fifty(s)
    ensures Fifty(Claim(cfg, s, rows, d).0)
  {
    assert SameTree(s, Reclaim(s, d)) && SameRows(s, Reclaim(s, d));
    hide Core, TreeInv, Writes, Calm, Scan, Rooted, RootsKnown, Reclaim, SameTree, Fifty, Quiet, SameRows;
    TreeFacts(s);
    ReclaimCalm(s, d);
    CalmWrites(cfg, s, Reclaim(s, d));
    CoreOf(cfg, s, Reclaim(s, d));
    SameTreeKeeps(s, Reclaim(s, d));
    SameRowsQuiet(s, Reclaim(s, d));
    QuietKeepsFifty(s, Reclaim(s, d));
    ScanFifty(cfg, Reclaim(s, d), rows, d);
  }

  lemma CancelFifty(s: Store, id: JobId, scope: Scope, now: Time)
    requires IndexMatchesJobs(s.jobs, s.index) && Fifty(s)
    ensures Fifty(Cancel(s, id, scope, now).0)
  {
    if Live(s, id) {
      var kept := CancelledJob(s.jobs[id], s.jobs[id].reason, now);
      var outcome := Outcome(EndedAs(Cancelled), [], None);
      assert JobCalm(s.jobs[id], kept);
      hide JobCalm, Calm, EndTree, TrimIndex, IndexMatchesJobs, Fifty;
      EndTreeCalm(s, id, kept, outcome, now);
      CalmKeepsIndex(s, EndTree(s, id, kept, outcome, now));
      TrimmedFifty(EndTree(s, id, kept, outcome, now));
    }
  }

  lemma ExpireOneFifty(s0: Store, s: Store, rest: seq<(JobId, Job)>, now: Time)
    requires IndexMatchesJobs(s0.jobs, s0.index)
    requires Expiring(s0, s, rest) && rest != [] && Live(s0, rest[0].0) && rest[0].1 == s0.jobs[rest[0].0]
    ensures Fifty(ExpireOne(s, rest[0].0, rest[0].1, now))
  {
    hide Expiring, Calm, EndTree, TrimIndex, IndexMatchesJobs, Fifty;
    ExpireOneStaysCalm(s0, s, rest, now);
    var t := EndTree(s, rest[0].0, ExpiredJob(rest[0].1, now), Outcome(Expired, rest[0].1.evidence, None), now);
    CalmKeepsIndex(s0, t);
    TrimmedFifty(t);
  }

  lemma ExpireAllFiftyFrom(s0: Store, s: Store, rest: seq<(JobId, Job)>, now: Time)
    requires TreeInv(s) && Expiring(s0, s, rest) && Fetched(s0, s.frames.Keys, rest)
    requires IndexMatchesJobs(s0.jobs, s0.index) && Fifty(s)
    ensures Fifty(ExpireAll(s, rest, now))
    decreases |rest|
  {
    if rest != [] {
      assert DepthBounded(s.frames, s.edges) by { hide Expiring, DepthBounded; }
      hide TreeInv, Expiring, DepthBounded, ExpireOne, Fetched, Fifty, IndexMatchesJobs;
      FetchedTail(s0, s.frames.Keys, rest);
      ExpireOneKeepsExpiring(s0, s, rest, s.frames.Keys, now);
      ExpireOneKeepsTree(s, rest[0].0, rest[0].1, now);
      ExpireOneFifty(s0, s, rest, now);
      ExpireAllFiftyFrom(s0, ExpireOne(s, rest[0].0, rest[0].1, now), rest[1..], now);
    } else {
      hide TreeInv, Expiring, Fetched, Fifty, IndexMatchesJobs;
    }
  }

  lemma ExpireAllFifty(s: Store, rows: seq<(JobId, Job)>, now: Time)
    requires TreeInv(s) && DueRows(s, rows, now) && IndexMatchesJobs(s.jobs, s.index) && Fifty(s)
    ensures Fifty(ExpireAll(s, rows, now))
  {
    hide IndexMatchesJobs, Fifty;
    DueRowsFetched(s, rows, now);
    hide TreeInv, Expiring, Fetched;
    ExpireAllFiftyFrom(s, s, rows, now);
  }

  lemma FinishFifty(cfg: Config, s: Store, id: JobId, attempt: int, report: Report, now: Time, late: Time,
                    alive: set<Process>, fits: bool)
    requires Core(cfg, s) && TreeInv(s) && Fifty(s)
    ensures Fifty(Finish(cfg, s, id, attempt, report, now, late, alive, fits).0)
  {
    hide Core, TreeInv, Rooted, RootsKnown, Writes, Calm, Forced, FinalStatus, Normalised, FinishCommits, CommitReport,
      FinishPrologue, GoodReport, Fifty;
    var r := Normalised(report);
    if IsRunning(s, id, attempt, now, alive) && FinishCommits(s, id, r, now, fits) {
      var f := Forced(s, id, r, now);
      var s1 := FinishPrologue(s, id, r);
      FinishGivesGoodReport(s, id, r, now, fits);
      PrologueCalm(s, id, r);
      PrologueShape(s, id, r);
      TreeFacts(s);
      CalmWrites(cfg, s, s1);
      CoreOf(cfg, s, s1);
      CommitFifty(cfg, s1, id, f, FinalStatus(s.jobs[id], f), r.consumed.Some?, late);
    }
  }

  lemma CommitFifty(cfg: Config, s: Store, id: JobId, f: Report, status: Status, acknowledged: bool, late: Time)
    requires Core(cfg, s) && id in s.jobs && GoodReport(s.jobs[id], f, status)
    ensures Fifty(CommitReport(cfg, s, id, f, status, acknowledged, late))
  {
    hide Core, GoodReport, FinishedJob, ReportsRow, Writes, Calm, TrimIndex, EndTree, Acknowledge, EndingOf, Fifty,
      IndexMatchesJobs;
    FinishedRow(cfg, s, id, f, status, late);
    var job := FinishedJob(cfg, s.jobs[id], f, status, late);
    if !status.Terminal() {
      var s1 := s.(jobs := s.jobs[id := job]);
      ReportWrites(cfg, s, s1, id);
      CoreOf(cfg, s, s1);
      IndexOfCore(cfg, s1);
      TrimmedFifty(s1);
    } else {
      var ended := job.(result := Some(|s.outbox|));
      assert ended.status.Terminal() by { FinishedStatus(cfg, s.jobs[id], f, status, late); }
      var s1 := s.(outbox := s.outbox + [Row(id, [])]);
      var s2 := s1.(jobs := s1.jobs[id := ended]);
      assert s2 == s.(jobs := s.jobs[id := ended], outbox := s.outbox + [Row(id, [])]);
      ReportWrites(cfg, s, s2, id);
      CoreOf(cfg, s, s2);
      IndexOfCore(cfg, s2);
      var outcome := Outcome(EndingOf(status, f.reason), ended.evidence, ended.result);
      var s3 := if acknowledged then Acknowledge(s2, id) else EndTree(s1, id, ended, outcome, late);
      AcknowledgeCalm(s2, id);
      EndedRowCalm(s2, id, ended, status, f.reason, late);
      EndTreeForgetsRow(s1, id, ended, ended, outcome, late);
      CalmKeepsIndex(s2, s3);
      TrimmedFifty(s3);
    }
  }

  lemma FinishedStatus(cfg: Config, job: Job, f: Report, status: Status, late: Time)
    ensures FinishedJob(cfg, job, f, status, late).status == status
  {
    hide RetryDelay;
  }
}
