/** Each transaction keeps the tree of frames. */
module BrokerTreeSteps {
  import opened Prelude
  import opened BrokerModel
  import opened BrokerSteps
  import opened BrokerInvariant
  import opened BrokerTree

  lemma SubmitKeepsTree(cfg: Config, s: Store, r: Request, now: Time)
    requires TreeInv(s) && r.id !in s.jobs
    ensures TreeInv(Submit(cfg, s, r, now).0)
  {
    hide TreeInv, RefreshedHints, CacheReply, Indexed, PublicLoad, Dedup;
    var (t, reply) := Submit(cfg, s, r, now);
    if reply == Admitted(r.id) && t != s {
      assert t.frames[r.id] == RootFrame(r.id, now + 300.0, false);
      NewRootKeepsTree(s, t, r.id);
    }
  }

  ghost predicate TreeGrows(s: Store, t: Store) {
    && TreeInv(t) && t.preparations == s.preparations && t.edges == s.edges && t.jobs.Keys == s.jobs.Keys
    && EndedSet(s.jobs) <= EndedSet(t.jobs)
  }

  lemma CancelOneKeepsTree(s: Store, id: JobId, reason: Reason, now: Time)
    requires TreeInv(s) && Live(s, id)
    ensures var t := EndTree(s, id, CancelledJob(s.jobs[id], reason, now), Outcome(EndedAs(Cancelled), [], None), now);
      TreeGrows(s, t) && id in EndedSet(t.jobs)
  {
    hide TreeInv, Descendants;
    var ended, outcome := CancelledJob(s.jobs[id], reason, now), Outcome(EndedAs(Cancelled), [], None);
    EdgesAreJobs(s);
    EndTreeKeepsTree(s, id, ended, outcome, now);
    EndTreeJobs(s, id, ended, outcome, now);
    hide CancelJobs, CancelFrames, EndFrame, EndedSet;
  }

  lemma TreeGrowsTransitive(s: Store, t: Store, u: Store)
    requires TreeGrows(s, t) && TreeGrows(t, u)
    ensures TreeGrows(s, u) && EndedSet(t.jobs) <= EndedSet(u.jobs) && t.jobs.Keys == s.jobs.Keys
  {
    hide TreeInv, EndedSet;
  }

  lemma TreeGrowsItself(s: Store)
    requires TreeInv(s)
    ensures TreeGrows(s, s)
  {
    hide TreeInv, EndedSet;
  }

  lemma EndedStay(s: Store, t: Store, id: JobId)
    requires TreeGrows(s, t)
    ensures TreeInv(t) && t.preparations == s.preparations && t.jobs.Keys == s.jobs.Keys
    ensures id in EndedSet(s.jobs) ==> id in EndedSet(t.jobs)
  {
    hide TreeInv, EndedSet;
  }

  lemma NotLiveMeansEnded(s: Store, id: JobId)
    ensures id in s.jobs && !Live(s, id) ==> id in EndedSet(s.jobs)
  {
  }

  lemma CancelAllKeepsTree(s: Store, order: seq<JobId>, reason: Reason, now: Time)
    requires TreeInv(s)
    ensures var t := CancelAll(s, order, reason, now);
      TreeGrows(s, t) && forall id :: id in order && id in s.jobs ==> id in EndedSet(t.jobs)
    decreases |order|
  {
    hide TreeInv, EndTree, CancelledJob, EndedSet, TreeGrows;
    if order == [] {
      TreeGrowsItself(s);
    } else {
      var id := order[0];
      var s1 := if Live(s, id)
        then EndTree(s, id, CancelledJob(s.jobs[id], reason, now), Outcome(EndedAs(Cancelled), [], None), now) else s;
      if Live(s, id) {
        CancelOneKeepsTree(s, id, reason, now);
      } else {
        TreeGrowsItself(s);
        NotLiveMeansEnded(s, id);
      }
      EndedStay(s, s1, id);
      CancelAllKeepsTree(s1, order[1..], reason, now);
      var t := CancelAll(s1, order[1..], reason, now);
      TreeGrowsTransitive(s, s1, t);
      EndedStay(s1, t, id);
      forall x | x in order && x in s.jobs
        ensures x in EndedSet(t.jobs)
      {
        assert x == id || x in order[1..];
      }
    }
  }

  /** Once every listed preparation has ended, so has every one that is not for this work. */
  lemma StaleAllEnded(s: Store, t: Store, work: Identity, stale: seq<JobId>)
    requires TreeInv(s) && TreeGrows(s, t)
    requires forall j :: StalePreparation(s, j, work) ==> j in stale
    requires forall j :: j in stale && j in s.jobs ==> j in EndedSet(t.jobs)
    requires forall j :: j in s.preparations ==> s.preparations[j] != work
    ensures s.preparations.Keys <= EndedSet(t.jobs)
  {
    hide OneWait, EdgesMatchWaits, FramesMatchWaits, DepthBounded, NoOrphans, OnePreparation;
    forall j | j in s.preparations
      ensures j in EndedSet(t.jobs)
    {
      assert j in s.frames && s.frames[j].automatic && j in s.jobs;
      if j !in EndedSet(s.jobs) {
        assert StalePreparation(s, j, work);
      }
    }
  }

  lemma PrepareKeepsTree(s: Store, id: JobId, scope: Scope, work: Identity, deadline: Time, now: Time,
                         permitted: bool, fitsStorage: bool, stale: seq<JobId>)
    requires TreeInv(s) && id !in s.jobs
    requires forall j :: StalePreparation(s, j, work) ==> j in stale
    ensures TreeInv(Prepare(s, id, scope, work, deadline, now, permitted, fitsStorage, stale).0)
  {
    hide TreeInv, CancelAll, EndedSet, TreeGrows, StalePreparation;
    var t := Prepare(s, id, scope, work, deadline, now, permitted, fitsStorage, stale).0;
    if deadline <= now || !permitted || exists j :: j in s.preparations && s.preparations[j] == work {
      assert t == s;
    } else {
      var s1 := CancelAll(s, stale, Other("preparation_source_changed"), now);
      CancelAllKeepsTree(s, stale, Other("preparation_source_changed"), now);
      EndedStay(s, s1, id);
      StaleAllEnded(s, s1, work, stale);
      if fitsStorage {
        assert t.frames[id] == RootFrame(id, deadline, true);
        NewRootKeepsTree(s1, t, id);
      }
    }
  }

  lemma RequeueKeepsTree(s: Store, id: JobId, now: Time)
    requires TreeInv(s) && Live(s, id)
    ensures var t := Requeue(s, id, now);
      && TreeInv(t) && EndedSet(t.jobs) == EndedSet(s.jobs) && t.jobs.Keys == s.jobs.Keys
      && t.edges == s.edges && t.frames == s.frames && Live(t, id)
  {
    hide TreeInv;
    if ReadyToResume(s, id) {
      var s1 := MarkReady(s, id, WaitCount(s, id));
      MarkReadyKeepsTree(s, id, WaitCount(s, id));
      RowKeepsTree(s1, Requeue(s, id, now), id);
    }
  }

  lemma RetireKeepsTree(s: Store, id: JobId, now: Time)
    requires TreeInv(s) && Live(s, id) && ChildrenEnded(EndedSet(s.jobs), s.edges, id)
    ensures TreeInv(Retire(s, id, now))
  {
    hide TreeInv, TrimIndex, ChildrenEnded;
    var job := RetiredJob(s.jobs[id], now);
    var s1 := s.(jobs := s.jobs[id := job]);
    PutJobEnds(s.jobs, id, job);
    EndLeafKeepsTree(s, s1, id);
    TrimKeepsTree(s1);
  }

  lemma TrimKeepsTree(s: Store)
    requires TreeInv(s)
    ensures TreeInv(TrimIndex(s))
  {
    SameTreeKeeps(s, TrimIndex(s)) by { hide TreeInv; }
  }

  lemma StartKeepsTree(cfg: Config, s: Store, id: JobId, d: Dispatch)
    requires TreeInv(s) && Live(s, id) && ChildrenEnded(EndedSet(s.jobs), s.edges, id)
    ensures TreeInv(Start(cfg, s, id, d))
  {
    EdgesAreJobs(s);
    hide TreeInv, ChildrenEnded;
    var t := Start(cfg, s, id, d);
    MoveFrameKeepsTree(s, id, FrameRunning);
    var s1 := s.(frames := s.frames[id := s.frames[id].(state := FrameRunning)]);
    PutJobKeepsEnded(s.jobs, id, t.jobs[id]);
    SameTreeKeeps(s1, t);
  }

  lemma ScanRowKeepsTree(cfg: Config, s: Store, id: JobId, d: Dispatch)
    requires TreeInv(s) && id in s.jobs
    ensures TreeInv(ScanRow(cfg, s, id, d).0)
  {
    if Live(s, id) && FrameGate(s, id, d.now) {
      RequeueKeepsTree(s, id, d.now);
      GateMeansChildrenEnded(s, id, d.now);
      var s1 := Requeue(s, id, d.now);
      hide TreeInv, Requeue, EndedSet, ChildrenEnded, FrameGate, DispatchGate, Exhausted, Start, Retire;
      RetireKeepsTree(s1, id, d.now);
      StartKeepsTree(cfg, s1, id, d);
    }
  }

  lemma ScanKeepsTree(cfg: Config, s: Store, rows: seq<JobId>, d: Dispatch)
    requires TreeInv(s)
    ensures TreeInv(Scan(cfg, s, rows, d).0)
    decreases |rows|
  {
    if rows != [] {
      if rows[0] in s.jobs {
        ScanRowKeepsTree(cfg, s, rows[0], d);
        hide TreeInv, ScanRow;
        ScanKeepsTree(cfg, ScanRow(cfg, s, rows[0], d).0, rows[1..], d);
      } else {
        ScanKeepsTree(cfg, s, rows[1..], d);
      }
    }
  }

  lemma ClaimKeepsTree(cfg: Config, s: Store, rows: seq<JobId>, d: Dispatch)
    requires TreeInv(s)
    ensures TreeInv(Claim(cfg, s, rows, d).0)
  {
    assert TreeInv(Reclaim(s, d)) by { SameTreeKeeps(s, Reclaim(s, d)) by { hide TreeInv; } }
    hide TreeInv, Scan;
    ScanKeepsTree(cfg, Reclaim(s, d), rows, d);
  }

  /** One job's row changes, and its terminal flag does not. */
  lemma RowKeepsTree(s: Store, t: Store, id: JobId)
    requires TreeInv(s) && id in s.jobs && id in t.jobs && t.jobs == s.jobs[id := t.jobs[id]]
    requires t.jobs[id].status.Terminal() == s.jobs[id].status.Terminal()
    requires t.frames == s.frames && t.waits == s.waits && t.edges == s.edges && t.preparations == s.preparations
    ensures TreeInv(t) && EndedSet(t.jobs) == EndedSet(s.jobs) && t.jobs.Keys == s.jobs.Keys
  {
    hide TreeInv;
    PutJobKeepsEnded(s.jobs, id, t.jobs[id]);
    SameTreeKeeps(s, t);
  }

  lemma HeartbeatKeepsTree(cfg: Config, s: Store, id: JobId, attempt: int, now: Time)
    requires TreeInv(s)
    ensures TreeInv(Heartbeat(cfg, s, id, attempt, now))
  {
    hide TreeInv;
    if id in s.jobs {
      RowKeepsTree(s, Heartbeat(cfg, s, id, attempt, now), id);
    } else {
      SameTreeKeeps(s, Heartbeat(cfg, s, id, attempt, now));
    }
  }

  lemma ObserveKeepsTree(cfg: Config, s: Store, id: JobId, attempt: int, text: string, now: Time,
                         alive: set<Process>, fits: bool)
    requires TreeInv(s)
    ensures TreeInv(Observe(cfg, s, id, attempt, text, now, alive, fits).0)
  {
    hide TreeInv;
    if IsRunning(s, id, attempt, now, alive) {
      RowKeepsTree(s, Observe(cfg, s, id, attempt, text, now, alive, fits).0, id);
    }
  }

  lemma CheckpointKeepsTree(cfg: Config, s: Store, id: JobId, attempt: int, frames: seq<Observation>,
                            scope: Option<Scope>, now: Time, alive: set<Process>, fits: bool)
    requires TreeInv(s)
    ensures TreeInv(WriteCheckpoint(cfg, s, id, attempt, frames, scope, now, alive, fits).0)
  {
    hide TreeInv, CheckpointAccepted;
    if IsRunning(s, id, attempt, now, alive) {
      RowKeepsTree(s, WriteCheckpoint(cfg, s, id, attempt, frames, scope, now, alive, fits).0, id);
    }
  }

  lemma NewChildFacts(s: Store, id: JobId, child: JobId)
    requires TreeInv(s) && Live(s, id) && child !in s.jobs
    ensures child !in s.preparations && id in s.frames && s.frames[id].root in s.frames && id !in EndedSet(s.jobs)
    ensures child !in s.frames && child !in s.edges
  {
    EdgesAreJobs(s);
    hide OneWait, EdgesMatchWaits, FramesMatchWaits, DepthBounded, NoOrphans, OnePreparation;
  }

  /** A live parent whose guard lets it wait has registered no wait yet. */
  lemma MayWaitMeansFirst(s: Store, id: JobId, now: Time, room: bool)
    requires TreeInv(s) && Live(s, id) && MayWait(s, id, now, room)
    ensures id !in s.waits && WaitCount(s, id) == 0 && s.jobs[id].deadline.Some?
    ensures id in s.frames ==> s.frames[id].depth < MAX_ROOT_DEPTH
  {
    if id in s.waits {
      LiveParentsNeverWaited(s, id) by { hide MayWait; }
    }
    hide TreeInv;
  }

  lemma RegisterChildShape(s: Store, id: JobId, child: JobId, now: Time)
    requires Live(s, id) && id in s.frames && s.frames[id].root in s.frames && child !in s.jobs && child !in s.frames
    requires child !in s.edges
    requires id !in s.waits && s.jobs[id].deadline.Some?
    ensures var t, w := RegisterChild(s, id, child, now), Wait(child, WaitOpen, false, false, false);
      && t.preparations == s.preparations && child in t.edges && child in t.frames
      && t.waits == s.waits[id := [w]] && t.edges == s.edges[child := t.edges[child]]
      && t.edges[child].parent == id && t.edges[child].generation == 1
      && t.edges[child].depth == t.frames[child].depth == s.frames[id].depth + 1
      && t.frames == s.frames[child := t.frames[child]][id := s.frames[id].(generation := 1, state := FrameWaiting)]
      && t.frames[child].generation == 0 && t.frames[child].state.FrameQueued? && t.frames[child].parent == Some(id)
      && t.frames[child].root == s.frames[id].root
      && t.frames[child].automatic == s.frames[t.frames[child].root].automatic
      && t.jobs.Keys == s.jobs.Keys + {child}
  {
    assert [] + [Wait(child, WaitOpen, false, false, false)] == [Wait(child, WaitOpen, false, false, false)];
  }

  lemma RegisterChildEnds(s: Store, id: JobId, child: JobId, now: Time)
    requires Live(s, id) && child !in s.jobs && s.jobs[id].deadline.Some?
    ensures EndedSet(RegisterChild(s, id, child, now).jobs) == EndedSet(s.jobs)
  {
    hide ParentFrame, WaitCount;
  }

  lemma PrivateWaitKeepsTree(cfg: Config, s: Store, id: JobId, attempt: int, child: JobId, now: Time,
                             alive: set<Process>, room: bool)
    requires TreeInv(s) && child !in s.jobs
    ensures TreeInv(PrivateWait(s, id, attempt, child, now, alive, room).0)
  {
    hide OneWait, EdgesMatchWaits, FramesMatchJobs, FramesMatchWaits, DepthBounded, Rooted, NoOrphans, OnePreparation,
      EndedSet,
      MayWait, RegisterChild, WaitCount;
    if IsRunning(s, id, attempt, now, alive) && MayWait(s, id, now, room) {
      hide TreeInv;
      MayWaitMeansFirst(s, id, now, room);
      NewChildFacts(s, id, child);
      RegisterChildKeepsTree(s, id, child, now);
    }
  }

  lemma RegisterChildKeepsTree(s: Store, id: JobId, child: JobId, now: Time)
    requires TreeInv(s) && Live(s, id) && child !in s.jobs && id !in s.waits && s.jobs[id].deadline.Some?
    requires id in s.frames && s.frames[id].depth < MAX_ROOT_DEPTH
    ensures TreeInv(RegisterChild(s, id, child, now))
  {
    hide OneWait, EdgesMatchWaits, FramesMatchJobs, FramesMatchWaits, DepthBounded, Rooted, NoOrphans, OnePreparation,
      EndedSet, RegisterChild;
    NewChildFacts(s, id, child);
    EdgesAreJobs(s);
    var t := RegisterChild(s, id, child, now);
    var w := Wait(child, WaitOpen, false, false, false);
    RegisterChildShape(s, id, child, now);
    RegisterChildEnds(s, id, child, now);
    NewChildKeepsWaits(s.jobs.Keys, EndedSet(s.jobs), s.waits, s.edges, id, child, t.edges[child], w);
    NewChildKeepsFrames(s.jobs.Keys, EndedSet(s.jobs), s.frames, s.waits, s.edges, id, child, t.frames[child],
      t.edges[child], w);
    NewChildIsRooted(s.frames, s.edges, s.preparations, id, child, t.frames[child], t.edges[child]);
  }

  lemma PrologueKeepsTree(s: Store, id: JobId, r: Report)
    requires TreeInv(s)
    ensures TreeInv(FinishPrologue(s, id, r))
  {
    hide TreeInv;
    if CountsAsFailure(s, id, r) {
      CountFailureKeepsTree(s, id);
    }
    hide MarkReady, CountsAsFailure;
    var s1 := CountFailure(s, id, r);
    MarkReadyKeepsTree(s1, id, WaitCount(s1, id));
  }

  lemma CountFailureKeepsFrames(ids: set<JobId>, ended: set<JobId>, a: map<JobId, Frame>, waits: map<JobId, seq<Wait>>,
                                edges: map<JobId, Edge>, id: JobId)
    requires FramesMatchJobs(ids, ended, a) && FramesMatchWaits(a, waits) && NoOrphans(ended, a, edges) && id in a
    ensures var b := a[id := a[id].(failures := a[id].failures + 1)];
      SamePlaces(a, b) && FramesMatchJobs(ids, ended, b) && FramesMatchWaits(b, waits) && NoOrphans(ended, b, edges)
  {
  }

  lemma CountFailureKeepsTree(s: Store, id: JobId)
    requires TreeInv(s) && id in s.frames
    ensures TreeInv(s.(frames := s.frames[id := s.frames[id].(failures := s.frames[id].failures + 1)]))
  {
    hide OneWait, EdgesMatchWaits, FramesMatchJobs, FramesMatchWaits, DepthBounded, Rooted, NoOrphans, OnePreparation,
      EndedSet, SamePlaces;
    var frames := s.frames[id := s.frames[id].(failures := s.frames[id].failures + 1)];
    CountFailureKeepsFrames(s.jobs.Keys, EndedSet(s.jobs), s.frames, s.waits, s.edges, id);
    SamePlacesKeepRoots(s.frames, frames, s.edges, s.preparations);
    SamePlacesKeepDepth(s.frames, frames, s.edges);
  }

  /** A terminal report that acknowledged its child: the job ends, nothing is below it. */
  lemma AcknowledgedEndKeepsTree(s: Store, id: JobId, ended: Job)
    requires TreeInv(s) && id in s.jobs && ended.status.Terminal() && ChildrenEnded(EndedSet(s.jobs), s.edges, id)
    ensures TreeInv(Acknowledge(s.(jobs := s.jobs[id := ended]), id))
  {
    hide TreeInv, ChildrenEnded;
    var s1 := s.(jobs := s.jobs[id := ended]);
    PutJobEnds(s.jobs, id, ended);
    EndLeafKeepsTree(s, s1, id);
    if WaitCount(s1, id) > 0 {
      PutWaitKeepsTree(s1, id, WaitCount(s1, id), WaitAt(s1, id, WaitCount(s1, id)).(acked := true));
    }
  }

  lemma CommitReportKeepsTree(cfg: Config, s: Store, id: JobId, f: Report, status: Status, acknowledged: bool,
                              late: Time)
    requires TreeInv(s) && Live(s, id)
    requires acknowledged && status.Terminal() ==> ChildrenEnded(EndedSet(s.jobs), s.edges, id)
    ensures TreeInv(CommitReport(cfg, s, id, f, status, acknowledged, late))
  {
    hide TreeInv, ChildrenEnded, EndTree, Acknowledge, TrimIndex, FinishedJob, EndingOf, EndedSet, CommitReport;
    EdgesAreJobs(s);
    CommitIs(cfg, s, id, f, status, acknowledged, late);
    var job := FinishedJob(cfg, s.jobs[id], f, status, late);
    assert job.status == status by { FinishedJobStatus(cfg, s.jobs[id], f, status, late); }
    var ended := job.(result := Some(|s.outbox|));
    var s1 := s.(outbox := s.outbox + [Row(id, [])]);
    if !status.Terminal() {
      RowKeepsTree(s, s.(jobs := s.jobs[id := job]), id);
      TrimKeepsTree(s.(jobs := s.jobs[id := job]));
    } else {
      OtherTablesKeepTree(s, s1);
      if acknowledged {
        AcknowledgedEndKeepsTree(s1, id, ended);
        TrimKeepsTree(Acknowledge(s1.(jobs := s1.jobs[id := ended]), id));
      } else {
        var outcome := Outcome(EndingOf(status, f.reason), ended.evidence, ended.result);
        EndTreeKeepsTree(s1, id, ended, outcome, late);
        TrimKeepsTree(EndTree(s1, id, ended, outcome, late));
      }
    }
  }

  lemma FinishedJobStatus(cfg: Config, job: Job, f: Report, status: Status, late: Time)
    ensures FinishedJob(cfg, job, f, status, late).status == status
  {
    hide RetryDelay;
  }

  lemma MarkReadyShape(s: Store, p: JobId, g: int)
    ensures MarkReady(s, p, g) == s.(waits := MarkReady(s, p, g).waits)
  {
    hide ChildEnded;
  }

  lemma CountFailureShape(s: Store, id: JobId, r: Report)
    ensures CountFailure(s, id, r) == s.(frames := CountFailure(s, id, r).frames)
    ensures CountFailure(s, id, r).frames.Keys == s.frames.Keys
  {
    hide CooperativeYield;
  }

  lemma PrologueShape(s: Store, id: JobId, r: Report)
    ensures var t := FinishPrologue(s, id, r);
      t == s.(frames := t.frames, waits := t.waits) && t.frames.Keys == s.frames.Keys
  {
    hide CountFailure, MarkReady, WaitCount;
    var s1 := CountFailure(s, id, r);
    CountFailureShape(s, id, r);
    MarkReadyShape(s1, id, WaitCount(s1, id));
  }

  lemma AckMeansChildrenEnded(s: Store, id: JobId, r: Report, now: Time, fits: bool)
    requires TreeInv(s) && id in s.jobs && FinishCommits(s, id, r, now, fits) && r.consumed.Some?
    ensures ChildrenEnded(EndedSet(s.jobs), s.edges, id)
  {
    hide TreeInv, Forced, FinalStatus, FindingsObserved, EndedSet, ChildrenEnded, ShownChild;
    assert AckNamesShownChild(s, id, r.consumed.value);
    ShownChildIsOnlyChild(s, id);
  }

  lemma FinishKeepsTree(cfg: Config, s: Store, id: JobId, attempt: int, report: Report, now: Time, late: Time,
                        alive: set<Process>, fits: bool)
    requires TreeInv(s)
    ensures TreeInv(Finish(cfg, s, id, attempt, report, now, late, alive, fits).0)
  {
    hide TreeInv, Forced, FinalStatus, Normalised, FinishCommits, EndedSet, ChildrenEnded, CommitReport, FinishPrologue;
    var r := Normalised(report);
    if IsRunning(s, id, attempt, now, alive) && FinishCommits(s, id, r, now, fits) {
      var f := Forced(s, id, r, now);
      PrologueKeepsTree(s, id, r);
      PrologueShape(s, id, r);
      if r.consumed.Some? {
        AckMeansChildrenEnded(s, id, r, now, fits);
      }
      CommitReportKeepsTree(cfg, FinishPrologue(s, id, r), id, f, FinalStatus(s.jobs[id], f), r.consumed.Some?, late);
    }
  }

  lemma CancelKeepsTree(s: Store, id: JobId, scope: Scope, now: Time)
    requires TreeInv(s)
    ensures TreeInv(Cancel(s, id, scope, now).0) && TreeInv(CancelPreparation(s, id, scope, now).0)
  {
    hide TreeInv, EndTree, TrimIndex, CancelledJob;
    if Live(s, id) {
      EdgesAreJobs(s);
      var kept, stopped :=
        CancelledJob(s.jobs[id], s.jobs[id].reason, now), CancelledJob(s.jobs[id], Other("operator_cancelled"), now);
      var outcome := Outcome(EndedAs(Cancelled), [], None);
      CancelledEnds(s.jobs[id], s.jobs[id].reason, now);
      CancelledEnds(s.jobs[id], Other("operator_cancelled"), now);
      EndTreeKeepsTree(s, id, kept, outcome, now);
      EndTreeKeepsTree(s, id, stopped, outcome, now);
      TrimKeepsTree(EndTree(s, id, kept, outcome, now));
    }
  }

  lemma CancelledEnds(job: Job, reason: Reason, now: Time)
    ensures CancelledJob(job, reason, now).status.Terminal()
  {
  }

  lemma ExpireOneKeepsTree(s: Store, id: JobId, fetched: Job, now: Time)
    requires TreeInv(s) && id in s.frames
    ensures TreeInv(ExpireOne(s, id, fetched, now))
    ensures ExpireOne(s, id, fetched, now).frames.Keys == s.frames.Keys
  {
    var outcome := Outcome(Expired, fetched.evidence, None);
    EndTreeFrames(s, id, ExpiredJob(fetched, now), outcome, now) by { hide TreeInv, EndTree; }
    hide TreeInv, EndTree, TrimIndex;
    EndTreeKeepsTree(s, id, ExpiredJob(fetched, now), outcome, now);
    TrimKeepsTree(EndTree(s, id, ExpiredJob(fetched, now), outcome, now));
    TrimShape(EndTree(s, id, ExpiredJob(fetched, now), outcome, now));
  }

  lemma TrimShape(s: Store)
    ensures TrimIndex(s) == s.(index := TrimIndex(s).index)
  {
  }

  lemma ExpireAllKeepsTree(s: Store, rows: seq<(JobId, Job)>, now: Time)
    requires TreeInv(s) && forall i :: 0 <= i < |rows| ==> rows[i].0 in s.frames
    ensures TreeInv(ExpireAll(s, rows, now))
    decreases |rows|
  {
    hide TreeInv, ExpireOne;
    if rows != [] {
      ExpireOneKeepsTree(s, rows[0].0, rows[0].1, now);
      ExpireAllKeepsTree(ExpireOne(s, rows[0].0, rows[0].1, now), rows[1..], now);
    }
  }

  lemma AppendChildResultKeepsTree(s: Store, p: JobId, g: int, child: JobId)
    requires TreeInv(s) && p in s.jobs
    ensures var t := AppendChildResult(s, p, g, child);
      TreeInv(t) && t.jobs.Keys == s.jobs.Keys && t.jobs[p].status == s.jobs[p].status
  {
    hide TreeInv, ChildRefs;
    var t := AppendChildResult(s, p, g, child);
    if t != s {
      RowKeepsTree(s, t, p);
    }
  }

  lemma QueueParentKeepsTree(s: Store, p: JobId, g: int, child: JobId, consumed: bool, now: Time)
    requires TreeInv(s) && Live(s, p)
    ensures var s2 := if consumed then s else AppendChildResult(s, p, g, child);
      p in s2.jobs
        && TreeInv(s2.(jobs := s2.jobs[p := s2.jobs[p].(status := QueuedAfterEviction, updated := now,
          available := now)]))
  {
    hide TreeInv, AppendChildResult;
    var s2 := if consumed then s else AppendChildResult(s, p, g, child);
    AppendChildResultKeepsTree(s, p, g, child);
    var job := s2.jobs[p].(status := QueuedAfterEviction, updated := now, available := now);
    RowKeepsTree(s2, s2.(jobs := s2.jobs[p := job]), p);
  }

  lemma ReadyHasWait(s: Store, p: JobId, g: int)
    requires OutcomeReady(s, p, g)
    ensures HasWait(s, p, g)
  {
  }

  lemma WakeOneKeepsTree(s: Store, p: JobId, g: int, now: Time)
    requires TreeInv(s)
    ensures TreeInv(WakeOne(s, p, g, now))
  {
    hide TreeInv, AppendChildResult, MarkReady, OutcomeReady;
    if OutcomeReady(s, p, g) {
      ReadyHasWait(s, p, g);
      var s1 := MarkReady(s, p, g);
      MarkReadyKeepsTree(s, p, g);
      if Live(s1, p) {
        QueueParentKeepsTree(s1, p, g, WaitAt(s, p, g).child, WaitAt(s, p, g).consumed, now);
      }
    }
  }

  lemma WakeAllKeepsTree(s: Store, waits: seq<(JobId, int)>, now: Time)
    requires TreeInv(s)
    ensures TreeInv(WakeAll(s, waits, now))
    decreases |waits|
  {
    hide TreeInv, WakeOne;
    if waits != [] {
      WakeOneKeepsTree(s, waits[0].0, waits[0].1, now);
      WakeAllKeepsTree(WakeOne(s, waits[0].0, waits[0].1, now), waits[1..], now);
    }
  }

  /** Ending the frame of a job that is terminal already. */
  lemma EndFrameKeepsTree(s: Store, id: JobId, outcome: Outcome, now: Time)
    requires TreeInv(s) && id in EndedSet(s.jobs)
    ensures TreeInv(s.(frames := EndFrame(s.frames, id, outcome, now)))
  {
    EndFrameEnds(s.frames, id, outcome, now);
    EdgesAreJobs(s);
    hide OneWait, EdgesMatchWaits, FramesMatchWaits, FramesMatchJobs, DepthBounded, Rooted, NoOrphans, OnePreparation,
      EndFrame, EndedSet;
    var frames := EndFrame(s.frames, id, outcome, now);
    FramesEndKeepsWaits(s.frames, frames, s.waits);
    SamePlacesKeepRoots(s.frames, frames, s.edges, s.preparations);
    SamePlacesKeepDepth(s.frames, frames, s.edges);
    EndingKeepsMatch(s.jobs.Keys, EndedSet(s.jobs), EndedSet(s.jobs), s.frames, frames);
    FramesEndKeepsOrphans(EndedSet(s.jobs), s.frames, frames, s.edges);
  }

  lemma FramesEndKeepsOrphans(ended: set<JobId>, a: map<JobId, Frame>, b: map<JobId, Frame>, edges: map<JobId, Edge>)
    requires NoOrphans(ended, a, edges) && FramesEnd(a, b)
    ensures NoOrphans(ended, b, edges)
  {
  }

  /** An acknowledged, released wait belongs to a terminal parent and an ended child. */
  lemma ConsumeFacts(s: Store, p: JobId, g: int)
    requires TreeInv(s) && ConsumeReady(s, p, g)
    ensures HasWait(s, p, g) && WaitAt(s, p, g).child in s.edges && WaitAt(s, p, g).child in EndedSet(s.jobs)
    ensures p in EndedSet(s.jobs)
    ensures ChildrenEnded(EndedSet(s.jobs), s.edges, p) && WaitAt(s, p, g).child != p
  {
    hide FramesMatchWaits, OnePreparation, NoOrphans, EndedSet;
    assert s.edges[WaitAt(s, p, g).child].parent == p;
    assert ChildrenEnded(EndedSet(s.jobs), s.edges, p) by { hide DepthBounded, Rooted; }
    assert WaitAt(s, p, g).child != p by { hide Rooted, FramesMatchJobs, ConsumeReady; }
  }

  lemma ConsumeWaitKeepsTree(s: Store, p: JobId, g: int)
    requires TreeInv(s) && ConsumeReady(s, p, g)
    ensures TreeInv(PutWait(s, p, g, WaitAt(s, p, g).(consumed := true, acked := false)))
  {
    ConsumeFacts(s, p, g);
    hide TreeInv, EndedSet, ChildrenEnded, OutcomeReady;
    PutWaitKeepsTree(s, p, g, WaitAt(s, p, g).(consumed := true, acked := false));
  }

  lemma ConsumeOneKeepsTree(s: Store, p: JobId, g: int, now: Time)
    requires TreeInv(s)
    ensures TreeInv(ConsumeOne(s, p, g, now))
  {
    hide TreeInv, ConsumeReady, EndedSet, ChildrenEnded, EndFrame, MarkReady;
    var s1 := MarkReady(s, p, g);
    MarkReadyKeepsTree(s, p, g);
    if p !in s.slots && ConsumeReady(s1, p, g) {
      ConsumeFacts(s1, p, g);
      ConsumeWaitKeepsTree(s1, p, g);
      HandOverKeepsTree(PutWait(s1, p, g, WaitAt(s1, p, g).(consumed := true, acked := false)), p,
        WaitAt(s1, p, g).child, now);
    }
  }

  lemma HandOverKeepsTree(s: Store, p: JobId, c: JobId, now: Time)
    requires TreeInv(s) && p in EndedSet(s.jobs) && c in s.edges && c in EndedSet(s.jobs)
    requires ChildrenEnded(EndedSet(s.jobs), s.edges, p)
    ensures TreeInv(EndOwnFrame(DropFrame(ResumeFrame(s, p), c), p, now))
  {
    hide TreeInv, ChildrenEnded, EndFrame;
    var s1 := ResumeFrame(s, p);
    if p in s.frames && !s.frames[p].state.FrameEnded? {
      MoveFrameKeepsTree(s, p, FrameRunning);
    }
    DropFrameKeepsTree(s1, c);
    var s2 := DropFrame(s1, c);
    EndFrameKeepsTree(s2, p,
      Outcome(EndingOf(s.jobs[p].status, s.jobs[p].reason), s.jobs[p].evidence, s.jobs[p].result), now);
  }

  lemma RetireOneKeepsTree(s: Store, p: JobId, g: int)
    requires TreeInv(s)
    ensures TreeInv(RetireOne(s, p, g))
  {
    if RetireReady(s, p, g) {
      RetireFacts(s, p, g);
      hide TreeInv;
      var w := WaitAt(s, p, g);
      var w' := w.(state := WaitRetired, consumed := true, acked := false);
      PutWaitKeepsTree(s, p, g, w');
      DropFrameKeepsTree(PutWait(s, p, g, w'), w.child);
    }
  }

  lemma RetireFacts(s: Store, p: JobId, g: int)
    requires TreeInv(s) && RetireReady(s, p, g)
    ensures WaitAt(s, p, g).child in s.edges && WaitAt(s, p, g).child in EndedSet(s.jobs)
  {
    hide FramesMatchWaits, OnePreparation, DepthBounded, Rooted;
    assert s.edges[WaitAt(s, p, g).child].parent == p;
  }

  lemma SettleWaitsKeepsTree(s: Store, acked: seq<(JobId, int)>, unread: seq<(JobId, int)>, now: Time)
    requires TreeInv(s)
    ensures TreeInv(SettleWaits(s, acked, unread, now))
  {
    hide TreeInv, ConsumeAll, RetireAll;
    ConsumeAllKeepsTree(s, acked, now);
    RetireAllKeepsTree(ConsumeAll(s, acked, now), unread);
  }

  lemma ConsumeAllKeepsTree(s: Store, waits: seq<(JobId, int)>, now: Time)
    requires TreeInv(s)
    ensures TreeInv(ConsumeAll(s, waits, now))
    decreases |waits|
  {
    hide TreeInv, ConsumeOne;
    if waits != [] {
      ConsumeOneKeepsTree(s, waits[0].0, waits[0].1, now);
      ConsumeAllKeepsTree(ConsumeOne(s, waits[0].0, waits[0].1, now), waits[1..], now);
    }
  }

  lemma RetireAllKeepsTree(s: Store, waits: seq<(JobId, int)>)
    requires TreeInv(s)
    ensures TreeInv(RetireAll(s, waits))
    decreases |waits|
  {
    hide TreeInv, RetireOne;
    if waits != [] {
      RetireOneKeepsTree(s, waits[0].0, waits[0].1);
      RetireAllKeepsTree(RetireOne(s, waits[0].0, waits[0].1), waits[1..]);
    }
  }

  lemma ReleaseParentKeepsTree(s: Store, p: JobId)
    requires TreeInv(s)
    ensures TreeInv(ReleaseParent(s, p))
  {
    hide TreeInv;
    if ReleasesParent(s, p) {
      var g := WaitCount(s, p);
      PutWaitKeepsTree(s, p, g, WaitAt(s, p, g).(released := true));
      MoveFrameKeepsTree(PutWait(s, p, g, WaitAt(s, p, g).(released := true)), p, FrameSuspended);
    }
  }

  lemma OtherTablesKeepTree(s: Store, t: Store)
    requires TreeInv(s)
    requires t.jobs == s.jobs && t.frames == s.frames && t.waits == s.waits && t.edges == s.edges
    requires t.preparations == s.preparations
    ensures TreeInv(t)
  {
    SameTreeKeeps(s, t) by { hide TreeInv; }
  }

  lemma CleanupKeepsTree(s: Store, id: JobId, attempt: int, failed: bool)
    requires TreeInv(s)
    ensures TreeInv(Cleanup(s, id, attempt, failed))
  {
    OtherTablesKeepTree(s, KeepFailedSlot(s, id, attempt)) by { hide TreeInv; }
    OtherTablesKeepTree(s, FreeSlot(s, id, attempt)) by { hide TreeInv; }
    hide TreeInv, ReleaseParent, FreeSlot, KeepFailedSlot;
    ReleaseParentKeepsTree(FreeSlot(s, id, attempt), id);
  }

  lemma LoseWorkersKeepsTree(s: Store, lost: set<(JobId, int)>)
    requires TreeInv(s)
    ensures TreeInv(LoseWorkers(s, lost))
  {
    OtherTablesKeepTree(s, LoseWorkers(s, lost)) by { hide TreeInv; }
  }

  lemma ReconcileKeepsTree(s: Store, id: JobId, attempt: int, owner: Process, alive: set<Process>, proved: bool)
    requires TreeInv(s)
    ensures TreeInv(ReconcileStaleSlot(s, id, attempt, owner, alive, proved).0)
  {
    OtherTablesKeepTree(s, ReconcileStaleSlot(s, id, attempt, owner, alive, proved).0) by { hide TreeInv; }
  }

  lemma ReleaseFailedKeepsTree(s: Store, expected: map<JobId, Reason>, delivered: set<JobId>)
    requires TreeInv(s)
    ensures TreeInv(ReleaseFailed(s, expected, delivered))
  {
    OtherTablesKeepTree(s, ReleaseFailed(s, expected, delivered)) by { hide TreeInv, ReleasesFailure; }
  }
}
