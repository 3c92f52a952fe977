/** What the invariant and the step relation mean for whole runs of the broker. */
module BrokerSafety {
  import opened Prelude
  import opened BrokerModel
  import opened BrokerSteps
  import opened BrokerInvariant
  import opened BrokerTree
  import opened BrokerTreeSteps
  import opened BrokerCalm
  import opened BrokerCalmSteps
  import opened BrokerWrites
  import opened BrokerRuns
  import opened BrokerAnswers

  // ----- fencing -------------------------------------------------------------------

  /** A worker's write: it carries the attempt it was started with. */
  predicate IsWrite(e: Event) {
    e.Observed? || e.Checkpointed? || e.Waited? || e.Finished?
  }

  ghost predicate Accepted(cfg: Config, s: Store, e: Event) {
    match e
    case Observed(id, attempt, text, now, alive, fits) => Observe(cfg, s, id, attempt, text, now, alive, fits).1.Some?
    case Checkpointed(id, attempt, frames, scope, now, alive, fits) =>
      WriteCheckpoint(cfg, s, id, attempt, frames, scope, now, alive, fits).1
    case Waited(id, attempt, child, now, alive, room) => PrivateWait(s, id, attempt, child, now, alive, room).1
    case Finished(id, attempt, report, now, late, alive, fits) =>
      Finish(cfg, s, id, attempt, report, now, late, alive, fits).1
    case _ => false
  }

  /** The attempt is over: a later one was started, or this one stopped running. */
  ghost predicate Fenced(s: Store, id: JobId, attempt: int) {
    id in s.jobs && (s.jobs[id].attempt > attempt || (s.jobs[id].attempt == attempt && !s.jobs[id].status.Running?))
  }

  lemma AcceptedOnlyWhileRunning(cfg: Config, s: Store, e: Event)
    requires IsWrite(e) && Accepted(cfg, s, e)
    ensures e.id in s.jobs && s.jobs[e.id].attempt == e.attempt && s.jobs[e.id].status.Running?
    ensures !Fenced(s, e.id, e.attempt)
  {
    hide CheckpointAccepted, FinishCommits, CommitReport, FinishPrologue, Normalised, Forced, FinalStatus;
  }

  lemma RefusedChangesNothing(cfg: Config, s: Store, e: Event)
    requires IsWrite(e) && !Accepted(cfg, s, e)
    ensures Apply(cfg, s, e) == s
  {
    hide CheckpointAccepted, FinishCommits, CommitReport, FinishPrologue, Normalised, Forced, FinalStatus;
  }

  lemma FenceHolds(s: Store, t: Store, id: JobId, attempt: int)
    requires Evolves(s, t) && Fenced(s, id, attempt)
    ensures Fenced(t, id, attempt)
  {
    assert JobEvolves(s.jobs[id], t.jobs[id]);
  }

  /** Once an attempt is over, no write of it or of an earlier one ever changes anything. */
  lemma FencedForever(cfg: Config, s: Store, run: seq<Event>, e: Event, attempt: int)
    requires Inv(cfg, s) && Run(cfg, s, run) && IsWrite(e)
    requires Fenced(s, e.id, attempt) && e.attempt <= attempt
    ensures !Accepted(cfg, After(cfg, s, run), e)
    ensures Apply(cfg, After(cfg, s, run), e) == After(cfg, s, run)
  {
    hide Inv, Accepted, Apply, Evolves;
    var t := After(cfg, s, run);
    RunKeepsInvariant(cfg, s, run);
    FenceHolds(s, t, e.id, attempt);
    if Accepted(cfg, t, e) {
      AcceptedOnlyWhileRunning(cfg, t, e);
      assert false;
    }
    RefusedChangesNothing(cfg, t, e);
  }

  /** The last write of an attempt ends it: a report, or a wait for a child. */
  lemma LastWriteFences(cfg: Config, s: Store, e: Event)
    requires (e.Finished? || e.Waited?) && Accepted(cfg, s, e)
    requires Inv(cfg, s) && Enabled(s, e)
    ensures Fenced(Apply(cfg, s, e), e.id, e.attempt)
  {
    if e.Waited? {
      hide Inv;
    } else {
      FinishFences(cfg, s, e.id, e.attempt, e.report, e.now, e.late, e.alive, e.fits) by {
        hide Inv, Finish;
        assert TreeInv(s) by { InvParts(cfg, s); }
      }
      hide Inv, Finish;
    }
  }

  lemma FinishFences(cfg: Config, s: Store, id: JobId, attempt: int, report: Report, now: Time, late: Time,
                     alive: set<Process>, fits: bool)
    requires TreeInv(s) && Finish(cfg, s, id, attempt, report, now, late, alive, fits).1
    ensures Fenced(Finish(cfg, s, id, attempt, report, now, late, alive, fits).0, id, attempt)
  {
    hide TreeInv, Forced, FinalStatus, Normalised, CommitReport, FinishPrologue, AckNamesShownChild, FindingsObserved,
      RetryDelay, DepthBounded;
    var r := Normalised(report);
    var f := Forced(s, id, r, now);
    var status := FinalStatus(s.jobs[id], f);
    assert IsRunning(s, id, attempt, now, alive) && FinishCommits(s, id, r, now, fits);
    CommittedStatusEnds(s, id, r, now, fits);
    PrologueShape(s, id, r);
    PrologueKeepsTree(s, id, r);
    var s1 := FinishPrologue(s, id, r);
    assert DepthBounded(s1.frames, s1.edges) by { TreeDepth(s1); }
    CommitSetsRow(cfg, s1, id, f, status, r.consumed.Some?, late);
  }

  lemma TreeDepth(s: Store)
    requires TreeInv(s)
    ensures DepthBounded(s.frames, s.edges)
  {
    hide OneWait, EdgesMatchWaits, FramesMatchWaits, FramesMatchJobs, DepthBounded, Rooted, NoOrphans, OnePreparation;
  }

  lemma CommittedStatusEnds(s: Store, id: JobId, r: Report, now: Time, fits: bool)
    requires id in s.jobs && FinishCommits(s, id, r, now, fits)
    ensures !FinalStatus(s.jobs[id], Forced(s, id, r, now)).Running?
  {
    hide AckNamesShownChild, FindingsObserved, Hollow;
  }

  lemma CommitSetsRow(cfg: Config, s: Store, id: JobId, f: Report, status: Status, acknowledged: bool, late: Time)
    requires id in s.jobs && !status.Running? && DepthBounded(s.frames, s.edges)
    ensures var t := CommitReport(cfg, s, id, f, status, acknowledged, late);
      id in t.jobs && t.jobs[id].attempt == s.jobs[id].attempt && t.jobs[id].status == status
  {
    hide EndTree, FinishedJob, DepthBounded, Acknowledge, EndingOf, TrimIndex, CommitReport;
    CommitIs(cfg, s, id, f, status, acknowledged, late);
    FinishedRowKeepsAttempt(cfg, s.jobs[id], f, status, late);
    var job := FinishedJob(cfg, s.jobs[id], f, status, late);
    var ended := job.(result := Some(|s.outbox|));
    var s1 := s.(outbox := s.outbox + [Row(id, [])]);
    if !status.Terminal() {
      TrimKeepsRows(s.(jobs := s.jobs[id := job]));
    } else if acknowledged {
      var s2 := s1.(jobs := s1.jobs[id := ended]);
      AcknowledgeKeepsRows(s2, id);
      TrimKeepsRows(Acknowledge(s2, id));
    } else {
      var outcome := Outcome(EndingOf(status, f.reason), ended.evidence, ended.result);
      EndTreeSetsRow(s1, id, ended, outcome, late);
      TrimKeepsRows(EndTree(s1, id, ended, outcome, late));
    }
  }

  lemma FinishedRowKeepsAttempt(cfg: Config, job: Job, f: Report, status: Status, late: Time)
    ensures FinishedJob(cfg, job, f, status, late).status == status
    ensures FinishedJob(cfg, job, f, status, late).attempt == job.attempt
  {
    hide RetryDelay;
  }

  lemma TrimKeepsRows(s: Store)
    ensures TrimIndex(s).jobs == s.jobs
  {
  }

  lemma AcknowledgeKeepsRows(s: Store, id: JobId)
    ensures Acknowledge(s, id).jobs == s.jobs
  {
  }

  lemma EndTreeSetsRow(s: Store, id: JobId, ended: Job, outcome: Outcome, now: Time)
    requires id in s.jobs && DepthBounded(s.frames, s.edges)
    ensures id in EndTree(s, id, ended, outcome, now).jobs && EndTree(s, id, ended, outcome, now).jobs[id] == ended
  {
    hide EndTree, DepthBounded, Descendants;
    NotBelowItself(s, id);
    EndTreeRows(s, id, ended, outcome, now);
  }

  /** An accepted cancellation ends the attempt it found. */
  lemma CancelFences(s: Store, id: JobId, scope: Scope, now: Time)
    requires TreeInv(s) && Cancel(s, id, scope, now).1
    ensures Fenced(Cancel(s, id, scope, now).0, id, s.jobs[id].attempt)
    ensures Cancel(s, id, scope, now).0.jobs[id].status.Cancelled?
  {
    TreeDepth(s);
    hide TreeInv, DepthBounded, EndTree;
    EndTreeSetsRow(s, id, CancelledJob(s.jobs[id], s.jobs[id].reason, now), Outcome(EndedAs(Cancelled), [], None), now);
  }

  /** Whatever ends a tree fences every live job below it. */
  lemma EndingFencesDescendants(s: Store, id: JobId, ended: Job, outcome: Outcome, now: Time, below: JobId)
    requires TreeInv(s) && id in s.frames && below in Descendants(s.edges, id) && Live(s, below) && below != id
    ensures var t := EndTree(s, id, ended, outcome, now);
      below in t.jobs && t.jobs[below].status.Cancelled? && t.jobs[below].attempt == s.jobs[below].attempt + 1
      && Fenced(t, below, s.jobs[below].attempt)
  {
    EdgesAreJobs(s);
    hide TreeInv, EndTree, Descendants;
    EndTreeRows(s, id, ended, outcome, now);
  }

  lemma ExpireOneTouches(s: Store, id: JobId, fetched: Job, now: Time)
    requires id in s.jobs && DepthBounded(s.frames, s.edges)
    ensures var t := ExpireOne(s, id, fetched, now);
      Touched(s.jobs, t.jobs, id) && id in t.jobs && t.jobs[id] == ExpiredJob(fetched, now)
  {
    hide DepthBounded, EndTree, TrimIndex, Touched, ExpiredJob;
    var outcome := Outcome(Expired, fetched.evidence, None);
    EndTreeTouches(s, id, ExpiredJob(fetched, now), outcome, now);
    EndTreeSetsRow(s, id, ExpiredJob(fetched, now), outcome, now);
    TrimKeepsRows(EndTree(s, id, ExpiredJob(fetched, now), outcome, now));
  }

  ghost predicate OtherRows(frames: set<JobId>, rest: seq<(JobId, Job)>, id: JobId) {
    forall k :: 0 <= k < |rest| ==> rest[k].0 in frames && rest[k].0 != id
  }

  lemma OtherTail(frames: set<JobId>, rest: seq<(JobId, Job)>, id: JobId)
    requires OtherRows(frames, rest, id) && rest != []
    ensures OtherRows(frames, rest[1..], id) && rest[0].0 in frames && rest[0].0 != id
  {
  }

  lemma TouchedLeavesEnded(a: map<JobId, Job>, b: map<JobId, Job>, touched: JobId, id: JobId)
    requires Touched(a, b, touched) && id in a && id != touched && a[id].status.Terminal()
    ensures id in b && b[id] == a[id]
  {
  }

  /** Later rows leave an ended record alone. */
  lemma {:induction false} ExpiryLeavesEnded(s: Store, rest: seq<(JobId, Job)>, now: Time, id: JobId)
    requires TreeInv(s) && id in s.jobs && s.jobs[id].status.Terminal() && OtherRows(s.frames.Keys, rest, id)
    ensures id in ExpireAll(s, rest, now).jobs && ExpireAll(s, rest, now).jobs[id] == s.jobs[id]
    decreases |rest|
  {
    hide TreeInv, ExpireOne, DepthBounded, OtherRows, Touched;
    if rest != [] {
      TreeDepth(s);
      EdgesAreJobs(s);
      OtherTail(s.frames.Keys, rest, id);
      var s1 := ExpireOne(s, rest[0].0, rest[0].1, now);
      ExpireOneTouches(s, rest[0].0, rest[0].1, now);
      TouchedLeavesEnded(s.jobs, s1.jobs, rest[0].0, id);
      ExpireOneKeepsTree(s, rest[0].0, rest[0].1, now);
      ExpiryLeavesEnded(s1, rest[1..], now, id);
    }
  }

  /** Rows of different jobs, each with a frame. */
  ghost predicate SeparateRows(frames: set<JobId>, rest: seq<(JobId, Job)>) {
    && (forall j :: 0 <= j < |rest| ==> rest[j].0 in frames)
    && (forall i, j :: 0 <= i < j < |rest| ==> rest[i].0 != rest[j].0)
  }

  lemma SeparateTail(frames: set<JobId>, rest: seq<(JobId, Job)>)
    requires SeparateRows(frames, rest) && rest != []
    ensures SeparateRows(frames, rest[1..]) && rest[0].0 in frames
    ensures forall j :: 0 <= j < |rest[1..]| ==> rest[1..][j].0 in frames && rest[1..][j].0 != rest[0].0
  {
  }

  lemma {:induction false} ExpiryEndsRow(s: Store, rest: seq<(JobId, Job)>, now: Time, k: int)
    requires TreeInv(s) && 0 <= k < |rest| && SeparateRows(s.frames.Keys, rest)
    ensures rest[k].0 in ExpireAll(s, rest, now).jobs
    ensures ExpireAll(s, rest, now).jobs[rest[k].0] == ExpiredJob(rest[k].1, now)
    decreases |rest|
  {
    hide TreeInv, ExpireOne, DepthBounded, SeparateRows, ExpiredJob, Touched;
    TreeDepth(s);
    EdgesAreJobs(s);
    SeparateTail(s.frames.Keys, rest);
    var s1 := ExpireOne(s, rest[0].0, rest[0].1, now);
    ExpireOneTouches(s, rest[0].0, rest[0].1, now);
    ExpireOneKeepsTree(s, rest[0].0, rest[0].1, now);
    if k == 0 {
      assert ExpiredJob(rest[0].1, now).status.Terminal() by { ExpiredIsTerminal(rest[0].1, now); }
      assert OtherRows(s1.frames.Keys, rest[1..], rest[0].0) by { SeparateOthers(s.frames.Keys, rest); }
      ExpiryLeavesEnded(s1, rest[1..], now, rest[0].0);
    } else {
      assert rest[1..][k - 1] == rest[k];
      ExpiryEndsRow(s1, rest[1..], now, k - 1);
    }
  }

  lemma SeparateOthers(frames: set<JobId>, rest: seq<(JobId, Job)>)
    requires SeparateRows(frames, rest) && rest != []
    ensures OtherRows(frames, rest[1..], rest[0].0)
  {
  }

  lemma ExpiredIsTerminal(job: Job, now: Time)
    ensures ExpiredJob(job, now).status.Terminal()
  {
  }

  lemma DueJobExpires(s: Store, rows: seq<(JobId, Job)>, now: Time, id: JobId)
    requires TreeInv(s) && DueRows(s, rows, now) && id in s.jobs && Due(s.jobs[id], now)
    ensures var t := ExpireAll(s, rows, now);
      id in t.jobs && t.jobs[id] == ExpiredJob(s.jobs[id], now) && Fenced(t, id, s.jobs[id].attempt)
  {
    DueFramesKnown(s, rows, now);
    hide TreeInv, ExpireAll;
    assert (id, s.jobs[id]) in rows;
    var k :| 0 <= k < |rows| && rows[k] == (id, s.jobs[id]);
    ExpiryEndsRow(s, rows, now, k);
  }

  /** Accepted writes to one job come with attempts that never go back; after a report or a
      wait they are strictly later ones. */
  lemma AcceptedAttemptsInOrder(cfg: Config, s: Store, e: Event, run: seq<Event>, later: Event)
    requires Inv(cfg, s) && IsWrite(e) && Enabled(s, e) && Accepted(cfg, s, e)
    requires Run(cfg, Apply(cfg, s, e), run) && IsWrite(later) && later.id == e.id
    requires Accepted(cfg, After(cfg, Apply(cfg, s, e), run), later)
    ensures e.attempt <= later.attempt
    ensures e.Finished? || e.Waited? ==> e.attempt < later.attempt
  {
    hide Inv, Accepted, Apply, Enabled, Evolves, After, Run;
    var t := Apply(cfg, s, e);
    var u := After(cfg, t, run);
    AcceptedOnlyWhileRunning(cfg, s, e);
    AcceptedOnlyWhileRunning(cfg, u, later);
    StepKeepsInvariant(cfg, s, e);
    RunKeepsInvariant(cfg, t, run);
    EvolvesTransitive(s, t, u);
    JobOnlyGrows(s, u, e.id);
    if (e.Finished? || e.Waited?) && later.attempt == e.attempt {
      LastWriteFences(cfg, s, e);
      FenceHolds(t, u, e.id, e.attempt);
      assert false;
    }
  }

  lemma JobOnlyGrows(s: Store, t: Store, id: JobId)
    requires Evolves(s, t) && id in s.jobs
    ensures id in t.jobs && JobEvolves(s.jobs[id], t.jobs[id])
  {
  }

  // ----- ended jobs ----------------------------------------------------------------

  /** A terminal record is final, whatever runs afterwards. */
  lemma TerminalIsFinal(cfg: Config, first: seq<Event>, rest: seq<Event>, id: JobId)
    requires Run(cfg, EMPTY, first + rest)
    requires id in After(cfg, EMPTY, first).jobs && After(cfg, EMPTY, first).jobs[id].status.Terminal()
    ensures id in After(cfg, EMPTY, first + rest).jobs
    ensures After(cfg, EMPTY, first + rest).jobs[id] == After(cfg, EMPTY, first).jobs[id]
  {
    hide Inv, After, Run, Evolves;
    RunSplits(cfg, EMPTY, first, rest);
    ReachableInvariant(cfg, first);
    RunKeepsInvariant(cfg, After(cfg, EMPTY, first), rest);
    JobOnlyGrows(After(cfg, EMPTY, first), After(cfg, EMPTY, first + rest), id);
  }

  /** No live job sits below a terminal ancestor, at any depth. */
  lemma {:induction false} NoLiveJobBelowTerminal(s: Store, id: JobId, ancestor: JobId, n: nat)
    requires TreeInv(s) && Under(s.edges, id, ancestor, n) && ancestor in EndedSet(s.jobs)
    ensures id in s.jobs && s.jobs[id].status.Terminal()
    decreases n
  {
    EdgesAreJobs(s);
    assert NoOrphans(EndedSet(s.jobs), s.frames, s.edges) by { hide NoOrphans; }
    hide TreeInv;
    var p := s.edges[id].parent;
    if p != ancestor {
      NoLiveJobBelowTerminal(s, p, ancestor, n - 1);
    }
    assert p in EndedSet(s.jobs);
  }

  // ----- waits ---------------------------------------------------------------------

  /** Once a parent has registered a wait, every later one is refused. */
  lemma SecondWaitRefused(s: Store, id: JobId, attempt: int, child: JobId, now: Time, alive: set<Process>, room: bool)
    requires TreeInv(s) && id in s.waits
    ensures !PrivateWait(s, id, attempt, child, now, alive, room).1
  {
    if Live(s, id) {
      LiveParentsNeverWaited(s, id) by { hide PrivateWait; }
    }
    hide TreeInv;
  }

  lemma WaitedForever(cfg: Config, s: Store, e: Event, run: seq<Event>, again: Event)
    requires Inv(cfg, s) && e.Waited? && Enabled(s, e) && Accepted(cfg, s, e)
    requires Run(cfg, Apply(cfg, s, e), run) && again.Waited? && again.id == e.id
    ensures !Accepted(cfg, After(cfg, Apply(cfg, s, e), run), again)
  {
    var t := Apply(cfg, s, e);
    var u := After(cfg, t, run);
    assert e.child in t.edges && t.edges[e.child].parent == e.id by { hide Inv, After, Run; }
    StepKeepsInvariant(cfg, s, e) by { hide Inv, Apply; }
    hide Inv, Apply, PrivateWait, After, Run;
    RunKeepsInvariant(cfg, t, run);
    InvParts(cfg, u);
    assert e.child in u.edges && u.edges[e.child].parent == e.id;
    EdgeMeansWait(u, e.child);
    hide TreeInv, Evolves;
    SecondWaitRefused(u, again.id, again.attempt, again.child, again.now, again.alive, again.room);
  }

  lemma EdgeMeansWait(s: Store, c: JobId)
    requires TreeInv(s) && c in s.edges
    ensures s.edges[c].parent in s.waits
  {
    hide OneWait, FramesMatchWaits, FramesMatchJobs, DepthBounded, Rooted, NoOrphans, OnePreparation;
  }

  // ----- evidence ------------------------------------------------------------------

  /** Where everything in a job's log comes from, in any reachable store. */
  lemma ReachableProvenance(cfg: Config, run: seq<Event>, id: JobId)
    requires Run(cfg, EMPTY, run) && id in After(cfg, EMPTY, run).jobs
    ensures var s := After(cfg, EMPTY, run);
      var job := s.jobs[id];
      && |job.evidence| == |job.observations|
      && (forall k :: 0 <= k < |job.evidence| ==>
            && job.observations[k].id == job.evidence[k]
            && 0 <= job.evidence[k] < |s.outbox| && s.outbox[job.evidence[k]].job == id
            && (job.observations[k].body.ChildResult? ==> job.observations[k].body.ordinal == k + 1))
      && (forall i, j :: 0 <= i < j < |job.evidence| ==> job.evidence[i] < job.evidence[j])
      && (forall f, p :: f in job.findings && p in f.evidence ==> p in job.evidence)
  {
    hide Inv, After, Run;
    ReachableInvariant(cfg, run);
    var s := After(cfg, EMPTY, run);
    LogOf(cfg, s, id);
    forall k | 0 <= k < |s.jobs[id].evidence|
      ensures s.jobs[id].observations[k].body.ChildResult? ==> s.jobs[id].observations[k].body.ordinal == k + 1
    {
      assert ChildEntry(s.outbox, s.edges, s.childPackets, id, k, s.jobs[id].observations[k]);
    }
  }

  lemma LogOf(cfg: Config, s: Store, id: JobId)
    requires Inv(cfg, s) && id in s.jobs
    ensures JobLog(s.outbox, s.edges, s.childPackets, id, s.jobs[id])
  {
    hide TreeInv, SlotsMatchJobs, SlotsBounded, AdmissionBounded, CheckpointInv, CacheInv, SuccessInv, JobLog,
      PacketLogged, OutcomeOwned, OutboxOrdered;
  }

  /** A child's result is in its parent's log exactly once after it was filed. */
  lemma ChildResultOnce(cfg: Config, s: Store, p: JobId, i: int, j: int)
    requires Inv(cfg, s) && p in s.jobs && 0 <= i < |s.jobs[p].observations| && 0 <= j < |s.jobs[p].observations|
    requires s.jobs[p].observations[i].body.ChildResult? && s.jobs[p].observations[j].body.ChildResult?
    requires s.jobs[p].observations[i].body.child == s.jobs[p].observations[j].body.child
    ensures i == j
  {
    LogOf(cfg, s, p);
    hide Inv, Owned;
    var log := s.jobs[p].observations;
    assert ChildEntry(s.outbox, s.edges, s.childPackets, p, i, log[i]);
    assert ChildEntry(s.outbox, s.edges, s.childPackets, p, j, log[j]);
  }

  lemma FiledResultLogged(cfg: Config, s: Store, key: ChildKey)
    requires Inv(cfg, s) && key in s.childPackets
    ensures key.parent in s.jobs
    ensures exists k :: 0 <= k < |s.jobs[key.parent].observations|
              && s.jobs[key.parent].observations[k].id == s.childPackets[key]
              && s.jobs[key.parent].observations[k].body.ChildResult?
              && s.jobs[key.parent].observations[k].body.child == key.child
  {
    hide TreeInv, SlotsMatchJobs, SlotsBounded, AdmissionBounded, CheckpointInv, CacheInv, SuccessInv, JobLog,
      OutcomeOwned, OutboxOrdered;
    assert PacketLogged(s.jobs, s.edges, key, s.childPackets[key]);
  }

  /** An observation keeps its place and its content forever. */
  lemma ObservationsArePermanent(cfg: Config, s: Store, run: seq<Event>, id: JobId, k: int)
    requires Inv(cfg, s) && Run(cfg, s, run) && id in s.jobs && 0 <= k < |s.jobs[id].observations|
    ensures var t := After(cfg, s, run);
      id in t.jobs && k < |t.jobs[id].observations| && t.jobs[id].observations[k] == s.jobs[id].observations[k]
  {
    hide Inv, After, Run, Evolves;
    RunKeepsInvariant(cfg, s, run);
    JobOnlyGrows(s, After(cfg, s, run), id);
  }

  // ----- checkpoints ---------------------------------------------------------------

  lemma SavedFrameFaithful(cfg: Config, frames: seq<Observation>, log: seq<Observation>, k: int)
    requires FramesFaithful(cfg, frames, log) && 0 <= k < |log|
    requires forall i, j :: 0 <= i < j < |log| ==> log[i].id < log[j].id
    ensures SavedFrame(frames, log[k]) == log[k] || FaithfulFrame(cfg, log[k], SavedFrame(frames, log[k]))
  {
    var i := Position(frames, log[k].id);
    if i < |frames| {
      var at := Position(log, frames[i].id);
      assert log[at].id == log[k].id;
      assert at == k;
    }
  }

  lemma LogIdsAscend(job: Job)
    requires LogMatchesEvidence(job)
    ensures forall i, j :: 0 <= i < j < |job.observations| ==> job.observations[i].id < job.observations[j].id
  {
  }

  lemma CheckpointOf(cfg: Config, s: Store, id: JobId)
    requires Inv(cfg, s) && id in s.checkpoints
    ensures id in s.jobs && CheckpointOk(cfg, s.checkpoints[id], s.jobs[id])
  {
    hide TreeInv, SlotsMatchJobs, SlotsBounded, AdmissionBounded, LogInv, CacheInv, SuccessInv, CheckpointOk;
  }

  /** What readers are shown refines the raw log: same length, order and ids, and each
      payload is the raw one or the marker for a payload over the frame cap. */
  lemma OverlayRefinesLog(cfg: Config, run: seq<Event>, id: JobId)
    requires Run(cfg, EMPTY, run) && id in After(cfg, EMPTY, run).jobs
    ensures var s := After(cfg, EMPTY, run);
      var raw, shown := s.jobs[id].observations, PublicObservations(s, id);
      && |shown| == |raw|
      && forall k :: 0 <= k < |raw| ==>
           && shown[k].id == raw[k].id
           && (shown[k].body == raw[k].body
               || (shown[k].body == Omitted
                 && cfg.frameBytes(raw[k].(call := shown[k].call)) > CHECKPOINT_MAX_FRAME_BYTES))
  {
    hide Inv, After, Run;
    ReachableInvariant(cfg, run);
    var s := After(cfg, EMPTY, run);
    var raw, shown := s.jobs[id].observations, PublicObservations(s, id);
    LogOf(cfg, s, id);
    LogIdsAscend(s.jobs[id]) by { hide Owned, ChildEntry; }
    if id in s.checkpoints {
      CheckpointOf(cfg, s, id);
      hide JobLog, FramesFaithful;
      forall k | 0 <= k < |raw|
        ensures shown[k] == raw[k] || FaithfulFrame(cfg, raw[k], shown[k])
      {
        SavedFrameFaithful(cfg, s.checkpoints[id].frames, raw, k);
      }
    }
  }

  lemma LaterIdUnsaved(cfg: Config, frames: seq<Observation>, before: seq<Observation>, now: seq<Observation>, k: int)
    requires FramesFaithful(cfg, frames, before) && before <= now && |before| <= k < |now|
    requires forall i, j :: 0 <= i < j < |now| ==> now[i].id < now[j].id
    ensures SavedFrame(frames, now[k]) == now[k]
  {
    forall i | 0 <= i < |frames|
      ensures frames[i].id != now[k].id
    {
      var at := Position(before, frames[i].id);
      assert before[at] == now[at];
    }
  }

  /** Nothing observed after a checkpoint is hidden by it: while it is the stored one, later
      observations are shown exactly as they were logged. */
  lemma LaterObservationsShownRaw(cfg: Config, s: Store, run: seq<Event>, id: JobId, k: int)
    requires Inv(cfg, s) && Run(cfg, s, run) && id in s.jobs && id in s.checkpoints
    requires id in After(cfg, s, run).jobs && id in After(cfg, s, run).checkpoints
    requires After(cfg, s, run).checkpoints[id] == s.checkpoints[id]
    requires |s.jobs[id].observations| <= k < |After(cfg, s, run).jobs[id].observations|
    ensures |PublicObservations(After(cfg, s, run), id)| == |After(cfg, s, run).jobs[id].observations|
    ensures PublicObservations(After(cfg, s, run), id)[k] == After(cfg, s, run).jobs[id].observations[k]
  {
    hide Inv, After, Run, Evolves, FramesFaithful, SavedFrame, JobLog, LogMatchesEvidence;
    var t := After(cfg, s, run);
    RunKeepsInvariant(cfg, s, run);
    CheckpointOf(cfg, s, id);
    LogOf(cfg, t, id);
    assert LogMatchesEvidence(t.jobs[id]) by { JobLogMatches(t, id); }
    LogIdsAscend(t.jobs[id]);
    JobOnlyGrows(s, t, id);
    LaterIdUnsaved(cfg, s.checkpoints[id].frames, s.jobs[id].observations, t.jobs[id].observations, k);
  }

  lemma JobLogMatches(s: Store, id: JobId)
    requires id in s.jobs && JobLog(s.outbox, s.edges, s.childPackets, id, s.jobs[id])
    ensures LogMatchesEvidence(s.jobs[id])
  {
    hide LogMatchesEvidence, Owned, ChildEntry;
  }

  // ----- counts --------------------------------------------------------------------

  /** The bounds and the exclusions, in any reachable store. */
  lemma ReachableBounds(cfg: Config, run: seq<Event>)
    requires Run(cfg, EMPTY, run)
    ensures var s := After(cfg, EMPTY, run);
      && |s.slots| <= EXECUTION_SLOT_CAPACITY
      && |AutomaticSlots(s)| <= 1
      && |PublicLoad(s)| <= PUBLIC_ADMISSION_LIMIT
      && |AnsweredSet(s)| <= INDEX_CAPACITY
      && (forall id :: id in s.slots ==>
            && id in s.jobs && s.slots[id].attempt <= s.jobs[id].attempt
            && (s.jobs[id].status.Running? ==> s.slots[id].attempt == s.jobs[id].attempt)
            && id in s.frames && !s.frames[id].state.FrameSuspended?)
      && (forall a, b :: a in s.preparations && b in s.preparations && Live(s, a) && Live(s, b) ==> a == b)
      && (forall id :: id in s.jobs && (s.jobs[id].status.Completed? || s.jobs[id].status.Partial?) ==>
            !Wordless(s.jobs[id].answer) || s.jobs[id].findings != [] || s.jobs[id].evidence != [])
  {
    hide Inv, After, Run;
    ReachableInvariant(cfg, run);
    var s := After(cfg, EMPTY, run);
    BoundsOf(cfg, s);
    assert TreeInv(s) by { hide TreeInv, Core, Fifty; InvParts(cfg, s); }
    PreparationsOf(s) by { hide TreeInv; }
    hide TreeInv, PublicLoad, AutomaticSlots, AnsweredSet, Blank, Wordless, Core, Fifty;
    BlankIsWordless();
  }

  lemma BoundsOf(cfg: Config, s: Store)
    requires Inv(cfg, s)
    ensures SlotsMatchJobs(s) && SlotsBounded(s) && AdmissionBounded(s) && SuccessInv(s)
    ensures |AnsweredSet(s)| <= INDEX_CAPACITY
  {
    hide TreeInv, SlotsMatchJobs, SlotsBounded, AdmissionBounded, LogInv, CheckpointInv, SuccessInv, IndexMatchesJobs,
      AnsweredSet;
  }

  lemma PreparationsOf(s: Store)
    requires TreeInv(s)
    ensures forall a, b :: a in s.preparations && b in s.preparations && Live(s, a) && Live(s, b) ==> a == b
  {
    hide OneWait, EdgesMatchWaits, FramesMatchWaits, FramesMatchJobs, DepthBounded, Rooted, NoOrphans;
  }

  /** One live generation per inquiry: live jobs of one identity are the indexed job. */
  lemma OneLiveGeneration(cfg: Config, run: seq<Event>, a: JobId, b: JobId)
    requires Run(cfg, EMPTY, run)
    requires Live(After(cfg, EMPTY, run), a) && Live(After(cfg, EMPTY, run), b)
    requires After(cfg, EMPTY, run).jobs[a].identity == After(cfg, EMPTY, run).jobs[b].identity
    requires After(cfg, EMPTY, run).jobs[a].identity.Some?
    ensures a == b
    ensures After(cfg, EMPTY, run).jobs[a].identity.value in After(cfg, EMPTY, run).index
    ensures After(cfg, EMPTY, run).index[After(cfg, EMPTY, run).jobs[a].identity.value] == a
  {
    hide Inv, After, Run;
    ReachableInvariant(cfg, run);
    IndexOfInv(cfg, After(cfg, EMPTY, run));
  }

  lemma IndexOfInv(cfg: Config, s: Store)
    requires Inv(cfg, s)
    ensures IndexMatchesJobs(s.jobs, s.index)
  {
    hide TreeInv, SlotsMatchJobs, SlotsBounded, AdmissionBounded, LogInv, CheckpointInv, SuccessInv, IndexMatchesJobs,
      AnsweredSet;
  }

  /** A packet names only earlier packets as its parents. */
  lemma ReachableOutboxOrder(cfg: Config, run: seq<Event>, k: int, p: PacketId)
    requires Run(cfg, EMPTY, run) && 0 <= k < |After(cfg, EMPTY, run).outbox|
    requires p in After(cfg, EMPTY, run).outbox[k].parents
    ensures 0 <= p < k && After(cfg, EMPTY, run).outbox[k].job in After(cfg, EMPTY, run).jobs
  {
    hide Inv, After, Run;
    ReachableInvariant(cfg, run);
    OutboxOf(cfg, After(cfg, EMPTY, run));
  }

  lemma OutboxOf(cfg: Config, s: Store)
    requires Inv(cfg, s)
    ensures OutboxOrdered(s.jobs.Keys, s.outbox)
  {
    hide TreeInv, SlotsMatchJobs, SlotsBounded, AdmissionBounded, CheckpointInv, CacheInv, SuccessInv, JobLog,
      PacketLogged, OutcomeOwned, OutboxOrdered;
  }
}
