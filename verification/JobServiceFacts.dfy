/** Facts the service's methods use between two of their statements. */
module JobServiceFacts {
  import opened Prelude
  import opened BrokerModel
  import opened BrokerSteps
  import opened BrokerInvariant
  import opened BrokerTree
  import opened BrokerTreeSteps
  import opened BrokerCalm
  import opened BrokerCalmSteps
  import opened BrokerWrites
  import opened BrokerWriteSteps
  import opened BrokerStarts
  import opened BrokerClaims
  import opened BrokerAnswers
  import opened BrokerRuns
  import opened BrokerSafety
  import opened BrokerSelection

  lemma TreeOf(cfg: Config, s: Store)
    requires Inv(cfg, s)
    ensures TreeInv(s) && Core(cfg, s) && DepthBounded(s.frames, s.edges) && IndexMatchesJobs(s.jobs, s.index)
  {
    hide Inv, TreeInv, Core, Fifty, DepthBounded, IndexMatchesJobs;
    InvParts(cfg, s);
    TreeDepth(s);
    IndexOfCore(cfg, s);
  }

  lemma CancelOneStaysTree(s: Store, id: JobId, reason: Reason, now: Time)
    requires TreeInv(s) && Live(s, id)
    ensures TreeInv(EndTree(s, id, CancelledJob(s.jobs[id], reason, now), Outcome(EndedAs(Cancelled), [], None), now))
  {
    hide TreeInv, EndTree, CancelledJob;
    CancelOneKeepsTree(s, id, reason, now);
  }

  lemma RowKeepsIndexed(s: Store, t: Store, id: JobId)
    requires IndexMatchesJobs(s.jobs, s.index) && t.index == s.index
    requires id in s.jobs && id in t.jobs && t.jobs == s.jobs[id := t.jobs[id]]
    requires t.jobs[id].identity == s.jobs[id].identity
    requires (s.jobs[id].status.Terminal() ==> t.jobs[id].status.Terminal())
    ensures IndexMatchesJobs(t.jobs, t.index)
  {
  }

  lemma ReclaimedParts(cfg: Config, s: Store, d: Dispatch)
    requires TreeInv(s) && Core(cfg, s)
    ensures TreeInv(Reclaim(s, d)) && Core(cfg, Reclaim(s, d))
  {
    assert SameTree(s, Reclaim(s, d)) by { hide TreeInv, Core, Reclaimable; }
    hide TreeInv, Core, Calm, Rooted, RootsKnown, Reclaim, SameTree, Writes;
    TreeFacts(s);
    ReclaimCalm(s, d);
    CalmWrites(cfg, s, Reclaim(s, d));
    CoreOf(cfg, s, Reclaim(s, d));
    SameTreeKeeps(s, Reclaim(s, d));
  }

  lemma ScanUnfolds(cfg: Config, s: Store, rows: seq<JobId>, k: int, d: Dispatch)
    requires 0 <= k < |rows|
    ensures Scan(cfg, s, rows[k..], d) ==
      if rows[k] !in s.jobs then Scan(cfg, s, rows[k + 1..], d)
      else if ScanRow(cfg, s, rows[k], d).1 then (ScanRow(cfg, s, rows[k], d).0, Some(rows[k]))
      else Scan(cfg, ScanRow(cfg, s, rows[k], d).0, rows[k + 1..], d)
  {
    hide ScanRow;
    assert rows[k..][0] == rows[k] && rows[k..][1..] == rows[k + 1..];
  }

  lemma ScanEnds(cfg: Config, s: Store, d: Dispatch)
    ensures Scan(cfg, s, [], d) == (s, None)
  {
  }

  lemma ScanRowParts(cfg: Config, s: Store, id: JobId, d: Dispatch)
    requires TreeInv(s) && Core(cfg, s) && id in s.jobs
    ensures TreeInv(ScanRow(cfg, s, id, d).0) && Core(cfg, ScanRow(cfg, s, id, d).0)
  {
    hide TreeInv, Core, ScanRow, Writes;
    ScanRowKeepsTree(cfg, s, id, d);
    ScanRowWrites(cfg, s, id, d);
    CoreOf(cfg, s, ScanRow(cfg, s, id, d).0);
  }

  lemma FinishParts(cfg: Config, s: Store, id: JobId, r: Report, now: Time, fits: bool)
    requires Inv(cfg, s) && id in s.jobs && s.jobs[id].status.Running? && FinishCommits(s, id, r, now, fits)
    ensures var s1, f := FinishPrologue(s, id, r), Forced(s, id, r, now);
      TreeInv(s1) && Core(cfg, s1) && s1.jobs == s.jobs && GoodReport(s.jobs[id], f, FinalStatus(s.jobs[id], f))
  {
    hide Inv, TreeInv, Core, Rooted, RootsKnown, Writes, Calm, Forced, FinalStatus, FinishCommits, FinishPrologue,
      GoodReport;
    TreeOf(cfg, s);
    TreeFacts(s);
    FinishGivesGoodReport(s, id, r, now, fits);
    PrologueCalm(s, id, r);
    PrologueShape(s, id, r);
    PrologueKeepsTree(s, id, r);
    CalmWrites(cfg, s, FinishPrologue(s, id, r));
    CoreOf(cfg, s, FinishPrologue(s, id, r));
  }

  /** The index still matches before the report's trim, on each of its three paths. */
  lemma CommitIndexed(cfg: Config, s: Store, id: JobId, f: Report, status: Status, acknowledged: bool, late: Time)
    requires Core(cfg, s) && id in s.jobs && GoodReport(s.jobs[id], f, status)
    ensures var job := FinishedJob(cfg, s.jobs[id], f, status, late);
      var ended := job.(result := Some(|s.outbox|));
      var s1 := s.(outbox := s.outbox + [Row(id, [])]);
      && IndexMatchesJobs(s.jobs[id := job], s.index)
      && IndexMatchesJobs(s.jobs[id := ended], s.index)
      && (status.Terminal() ==>
            var t := EndTree(s1, id, ended, Outcome(EndingOf(status, f.reason), ended.evidence, ended.result), late);
            IndexMatchesJobs(t.jobs, t.index))
  {
    hide Core, GoodReport, FinishedJob, ReportsRow, Writes, Calm, EndTree, EndingOf, IndexMatchesJobs;
    FinishedRow(cfg, s, id, f, status, late);
    FinishedStatus(cfg, s.jobs[id], f, status, late);
    var job := FinishedJob(cfg, s.jobs[id], f, status, late);
    var s0 := s.(jobs := s.jobs[id := job]);
    ReportWrites(cfg, s, s0, id);
    CoreOf(cfg, s, s0);
    IndexOfCore(cfg, s0);
    var ended := job.(result := Some(|s.outbox|));
    var s1 := s.(outbox := s.outbox + [Row(id, [])]);
    var s2 := s1.(jobs := s1.jobs[id := ended]);
    assert s2 == s.(jobs := s.jobs[id := ended], outbox := s.outbox + [Row(id, [])]);
    ReportWrites(cfg, s, s2, id);
    CoreOf(cfg, s, s2);
    IndexOfCore(cfg, s2);
    if status.Terminal() {
      var outcome := Outcome(EndingOf(status, f.reason), ended.evidence, ended.result);
      EndedRowCalm(s2, id, ended, status, f.reason, late);
      EndTreeForgetsRow(s1, id, ended, ended, outcome, late);
      CalmKeepsIndex(s2, EndTree(s1, id, ended, outcome, late));
    }
  }

  lemma CancelledIsCalm(job: Job, reason: Reason, now: Time)
    requires !job.status.Terminal()
    ensures JobCalm(job, CancelledJob(job, reason, now)) && CancelledJob(job, reason, now).evidence == job.evidence
  {
  }

  lemma CancelIndexed(cfg: Config, s: Store, id: JobId, now: Time)
    requires Inv(cfg, s) && Live(s, id)
    ensures DepthBounded(s.frames, s.edges)
    ensures var t := EndTree(s, id, CancelledJob(s.jobs[id], s.jobs[id].reason, now),
      Outcome(EndedAs(Cancelled), [], None), now);
      IndexMatchesJobs(t.jobs, t.index)
  {
    var kept := CancelledJob(s.jobs[id], s.jobs[id].reason, now);
    var outcome := Outcome(EndedAs(Cancelled), [], None);
    CancelledIsCalm(s.jobs[id], s.jobs[id].reason, now) by { hide Inv, EndTree; }
    hide Inv, CancelledJob, TreeInv, Core, DepthBounded, IndexMatchesJobs, Calm, EndTree, JobCalm;
    TreeOf(cfg, s);
    EndTreeCalm(s, id, kept, outcome, now);
    CalmKeepsIndex(s, EndTree(s, id, kept, outcome, now));
  }

  /** One row of an expiry: what its statements need, and what the loop keeps. */
  lemma ExpireRowParts(cfg: Config, s0: Store, s: Store, rest: seq<(JobId, Job)>, now: Time)
    requires Inv(cfg, s0) && TreeInv(s) && Expiring(s0, s, rest) && Fetched(s0, s.frames.Keys, rest) && rest != []
    ensures DepthBounded(s.frames, s.edges)
    ensures var t := EndTree(s, rest[0].0, ExpiredJob(rest[0].1, now), Outcome(Expired, rest[0].1.evidence, None), now);
      IndexMatchesJobs(t.jobs, t.index)
    ensures var t := ExpireOne(s, rest[0].0, rest[0].1, now);
      && TreeInv(t) && Expiring(s0, t, rest[1..]) && Fetched(s0, t.frames.Keys, rest[1..])
      && ExpireAll(s, rest, now) == ExpireAll(t, rest[1..], now)
  {
    hide Inv, TreeInv, Core, Expiring, DepthBounded, ExpireOne, Fetched, IndexMatchesJobs, EndTree, Calm;
    TreeOf(cfg, s0);
    TreeDepth(s);
    FetchedTail(s0, s.frames.Keys, rest);
    ExpireOneStaysCalm(s0, s, rest, now);
    CalmKeepsIndex(s0,
      EndTree(s, rest[0].0, ExpiredJob(rest[0].1, now), Outcome(Expired, rest[0].1.evidence, None), now));
    ExpireOneKeepsExpiring(s0, s, rest, s.frames.Keys, now);
    ExpireOneKeepsTree(s, rest[0].0, rest[0].1, now);
  }

  lemma ExpireOneIs(s: Store, id: JobId, fetched: Job, now: Time)
    ensures ExpireOne(s, id, fetched, now) ==
      TrimIndex(EndTree(s, id, ExpiredJob(fetched, now), Outcome(Expired, fetched.evidence, None), now))
  {
    hide EndTree, TrimIndex, ExpiredJob;
  }

  lemma ExpireEnds(s: Store, now: Time)
    ensures ExpireAll(s, [], now) == s
  {
  }

  lemma RequeueKeepsIdentity(s: Store, id: JobId, now: Time)
    requires Live(s, id)
    ensures id in Requeue(s, id, now).jobs && Requeue(s, id, now).jobs[id].identity == s.jobs[id].identity
  {
    hide ReadyToResume;
    RequeueRow(s, id, now);
  }

  lemma RetiredRowFacts(job: Job, now: Time)
    ensures RetiredJob(job, now).status.Terminal() && RetiredJob(job, now).identity == job.identity
  {
  }

  lemma WaitHasDeadline(s: Store, id: JobId, now: Time, room: bool)
    requires id in s.jobs && MayWait(s, id, now, room)
    ensures s.jobs[id].deadline.Some?
  {
    hide ParentFrame;
  }

  lemma AcknowledgeRows(s: Store, id: JobId)
    ensures Acknowledge(s, id).jobs == s.jobs && Acknowledge(s, id).index == s.index
  {
  }

  // ----- reclaiming ----------------------------------------------------------------

  ghost function ReclaimAmong(slots: map<JobId, Slot>, done: seq<JobId>, d: Dispatch): map<JobId, Slot> {
    map id | id in slots && !(id in done && Reclaimable(slots[id], d)) :: slots[id]
  }

  lemma NothingReclaimed(slots: map<JobId, Slot>, d: Dispatch)
    ensures ReclaimAmong(slots, [], d) == slots
  {
    hide Reclaimable;
  }

  lemma ReclaimOneMore(slots: map<JobId, Slot>, held: seq<JobId>, k: int, d: Dispatch)
    requires 0 <= k < |held| && Distinct(held) && forall x :: x in held <==> x in slots.Keys
    ensures var now, id := ReclaimAmong(slots, held[..k], d), held[k];
      && id in now && now[id] == slots[id]
      && ReclaimAmong(slots, held[..k + 1], d) == if Reclaimable(slots[id], d) then now - {id} else now
  {
    hide Reclaimable;
    assert held[k] in held && held[k] !in held[..k];
    assert held[..k + 1] == held[..k] + [held[k]];
  }

  lemma AllReclaimed(s: Store, slots: map<JobId, Slot>, held: seq<JobId>, d: Dispatch)
    requires (forall x :: x in held <==> x in slots.Keys) && s.slots == ReclaimAmong(slots, held[..|held|], d)
    ensures s == Reclaim(s.(slots := slots), d)
  {
    hide Reclaimable;
    assert held[..|held|] == held;
    assert forall id :: id in slots ==> id in held;
    assert ReclaimAmong(slots, held, d) == Reclaim(s.(slots := slots), d).slots;
  }
}
