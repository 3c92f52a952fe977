/** Which transactions are calm, and why. */
module BrokerCalmSteps {
  import opened Prelude
  import opened BrokerModel
  import opened BrokerSteps
  import opened BrokerInvariant
  import opened BrokerCalm
  import opened BrokerTree
  import opened BrokerTreeSteps

  // ----- pieces --------------------------------------------------------------------

  lemma RowCalm(s: Store, id: JobId, job: Job)
    requires id in s.jobs && JobCalm(s.jobs[id], job)
    ensures Calm(s, s.(jobs := s.jobs[id := job]))
  {
    hide FramesCalm, JobCalm, JobsCalm;
    OneJobCalm(s.jobs, id, job);
    CalmReflexive(s);
  }

  lemma OneJobCalm(jobs: map<JobId, Job>, id: JobId, job: Job)
    requires id in jobs && JobCalm(jobs[id], job)
    ensures JobsCalm(jobs, jobs[id := job])
  {
  }

  /** Waits are no part of what calm protects. */
  lemma WaitsCalm(s: Store, t: Store)
    requires t == s.(waits := t.waits)
    ensures Calm(s, t)
  {
    CalmReflexive(s);
  }

  lemma TrimCalm(s: Store)
    ensures Calm(s, TrimIndex(s))
  {
    CalmReflexive(s) by { hide TrimIndex; }
    assert IndexCalm(s.jobs, s.index, TrimIndex(s).index) by { hide JobsCalm, FramesCalm, SlotsCalm; }
    hide IndexCalm, JobsCalm, FramesCalm;
  }

  lemma SlotsOnlyCalm(s: Store, t: Store)
    requires t == s.(slots := t.slots, workers := t.workers)
    requires t.workers <= s.workers
    requires forall id :: id in t.slots ==>
               id in s.slots && t.slots[id].attempt == s.slots[id].attempt
               && (t.slots[id].cleanupFailed ==> s.slots[id].cleanupFailed || (id, t.slots[id].attempt) !in t.workers)
    ensures Calm(s, t)
  {
    CalmReflexive(s);
    hide JobsCalm, FramesCalm, IndexCalm;
  }

  ghost predicate FrameMoveCalm(s: Store, frames: map<JobId, Frame>) {
    && FramesCalm(s.jobs, s.frames, frames)
    && forall id :: id in s.slots && id in s.frames ==>
         id in frames && (frames[id].state.FrameSuspended? ==> s.frames[id].state.FrameSuspended?)
  }

  lemma FramesOnlyCalm(s: Store, frames: map<JobId, Frame>)
    requires FrameMoveCalm(s, frames)
    ensures Calm(s, s.(frames := frames))
  {
    CalmReflexive(s);
    hide JobsCalm, FramesCalm, IndexCalm;
  }

  // ----- ending trees --------------------------------------------------------------

  lemma CancelJobsCalm(jobs: map<JobId, Job>, frames: map<JobId, Frame>, doomed: set<JobId>, now: Time)
    ensures JobsCalm(jobs, CancelJobs(jobs, frames, doomed, now))
  {
  }

  lemma CancelFramesCalm(jobs: map<JobId, Job>, frames: map<JobId, Frame>, doomed: set<JobId>)
    ensures FramesCalm(jobs, frames, CancelFrames(frames, jobs.Keys, doomed))
    ensures CancelFrames(frames, jobs.Keys, doomed).Keys == frames.Keys
    ensures forall id :: id in frames && CancelFrames(frames, jobs.Keys, doomed)[id].state.FrameSuspended? ==>
      frames[id].state.FrameSuspended?
  {
  }

  lemma EndFrameCalm(jobs: map<JobId, Job>, frames: map<JobId, Frame>, id: JobId, outcome: Outcome, now: Time)
    requires id in jobs && OwnOutcome(outcome, jobs[id])
    ensures FramesCalm(jobs, frames, EndFrame(frames, id, outcome, now))
    ensures EndFrame(frames, id, outcome, now).Keys == frames.Keys
    ensures forall x :: x in frames && EndFrame(frames, id, outcome, now)[x].state.FrameSuspended? ==>
      frames[x].state.FrameSuspended?
  {
  }

  /** The three calm moves inside EndTree. */
  lemma EndTreeCalm(s: Store, id: JobId, ended: Job, outcome: Outcome, now: Time)
    requires id in s.jobs && JobCalm(s.jobs[id], ended) && OwnOutcome(outcome, ended)
    ensures Calm(s, EndTree(s, id, ended, outcome, now))
  {
    hide Calm, Descendants, CancelJobs, CancelFrames, EndFrame, JobCalm, OwnOutcome;
    var s1 := s.(jobs := s.jobs[id := ended]);
    RowCalm(s, id, ended);
    if id in s.frames {
      var s2 := CancelDescendants(s1, id, now);
      CancelDescendantsCalm(s1, id, now);
      CancelKeepsOutcome(s1, id, outcome, now);
      EndOneFrameCalm(s2, id, outcome, now);
      CalmTransitive(s, s1, s2);
      CalmTransitive(s, s2, s2.(frames := EndFrame(s2.frames, id, outcome, now)));
    }
  }

  lemma CancelKeepsOutcome(s: Store, id: JobId, o: Outcome, now: Time)
    requires id in s.jobs && OwnOutcome(o, s.jobs[id])
    ensures id in CancelDescendants(s, id, now).jobs && OwnOutcome(o, CancelDescendants(s, id, now).jobs[id])
  {
    hide Descendants, CancelFrames;
  }

  lemma CancelDescendantsCalm(s: Store, id: JobId, now: Time)
    ensures Calm(s, CancelDescendants(s, id, now))
  {
    hide Descendants, CancelJobs, CancelFrames;
    var doomed := Descendants(s.edges, id);
    CancelJobsCalm(s.jobs, s.frames, doomed, now);
    CancelFramesCalm(s.jobs, s.frames, doomed);
    assert IndexCalm(CancelDescendants(s, id, now).jobs, s.index, s.index);
    hide JobsCalm, FramesCalm, IndexCalm;
  }

  lemma EndOneFrameCalm(s: Store, id: JobId, outcome: Outcome, now: Time)
    requires id in s.jobs && OwnOutcome(outcome, s.jobs[id])
    ensures Calm(s, s.(frames := EndFrame(s.frames, id, outcome, now)))
  {
    EndFrameCalm(s.jobs, s.frames, id, outcome, now);
    hide EndFrame, OwnOutcome, FramesCalm;
    FramesOnlyCalm(s, EndFrame(s.frames, id, outcome, now));
  }

  // ----- whole transactions --------------------------------------------------------

  lemma HeartbeatCalm(cfg: Config, s: Store, id: JobId, attempt: int, now: Time)
    ensures Calm(s, Heartbeat(cfg, s, id, attempt, now))
  {
    hide Calm, JobsCalm, FramesCalm, IndexCalm;
    var lease := now + cfg.leaseSeconds;
    var s1 := s.(slots := if id in s.slots && s.slots[id].attempt == attempt
                          then s.slots[id := s.slots[id].(lease := lease)] else s.slots);
    SlotsOnlyCalm(s, s1);
    if id in s.jobs && s.jobs[id].attempt == attempt && s.jobs[id].status.Running? {
      RowCalm(s1, id, s.jobs[id].(lease := lease));
      CalmTransitive(s, s1, Heartbeat(cfg, s, id, attempt, now));
    }
  }

  lemma ReclaimCalm(s: Store, d: Dispatch)
    ensures Calm(s, Reclaim(s, d))
  {
    hide Calm, Reclaimable;
    SlotsOnlyCalm(s, Reclaim(s, d));
  }

  lemma MarkReadyCalm(s: Store, p: JobId, g: int)
    ensures Calm(s, MarkReady(s, p, g))
  {
    MarkReadyWaits(s, p, g);
    hide Calm, MarkReady;
    WaitsCalm(s, MarkReady(s, p, g));
  }

  lemma MarkReadyWaits(s: Store, p: JobId, g: int)
    ensures MarkReady(s, p, g) == s.(waits := MarkReady(s, p, g).waits)
  {
    hide ChildEnded, HasWait, WaitAt;
  }

  lemma RequeueCalm(s: Store, id: JobId, now: Time)
    requires Live(s, id)
    ensures Calm(s, Requeue(s, id, now))
  {
    if ReadyToResume(s, id) {
      hide Calm, ChildEnded, WaitCount, OutcomeReady;
      var s1 := MarkReady(s, id, WaitCount(s, id));
      MarkReadyCalm(s, id, WaitCount(s, id));
      MarkReadyRows(s, id, WaitCount(s, id));
      hide MarkReady;
      RowCalm(s1, id, s1.jobs[id].(status := QueuedAfterEviction, available := now, updated := now));
      CalmTransitive(s, s1, Requeue(s, id, now));
    } else {
      CalmReflexive(s) by { hide Calm; }
    }
  }

  lemma MarkReadyRows(s: Store, p: JobId, g: int)
    ensures MarkReady(s, p, g) == s.(waits := MarkReady(s, p, g).waits)
  {
    hide ChildEnded;
  }

  lemma RetireCalm(s: Store, id: JobId, now: Time)
    requires Live(s, id)
    ensures Calm(s, Retire(s, id, now))
  {
    var job := RetiredJob(s.jobs[id], now);
    assert JobCalm(s.jobs[id], job);
    hide Calm, JobCalm, TrimIndex;
    RowCalm(s, id, job);
    TrimCalm(s.(jobs := s.jobs[id := job]));
    CalmTransitive(s, s.(jobs := s.jobs[id := job]), Retire(s, id, now));
  }

  lemma CancelCalm(s: Store, id: JobId, scope: Scope, now: Time)
    ensures Calm(s, Cancel(s, id, scope, now).0) && Calm(s, CancelPreparation(s, id, scope, now).0)
  {
    CalmReflexive(s) by { hide EndTree, TrimIndex; }
    if Live(s, id) {
      var kept, stopped :=
        CancelledJob(s.jobs[id], s.jobs[id].reason, now), CancelledJob(s.jobs[id], Other("operator_cancelled"), now);
      var outcome := Outcome(EndedAs(Cancelled), [], None);
      assert JobCalm(s.jobs[id], kept) && JobCalm(s.jobs[id], stopped) by { hide Calm, EndTree; }
      hide Calm, EndTree, TrimIndex, JobCalm;
      EndTreeCalm(s, id, kept, outcome, now);
      EndTreeCalm(s, id, stopped, outcome, now);
      TrimCalm(EndTree(s, id, kept, outcome, now));
      CalmTransitive(s, EndTree(s, id, kept, outcome, now), TrimIndex(EndTree(s, id, kept, outcome, now)));
    }
  }

  lemma CancelAllCalm(s: Store, order: seq<JobId>, reason: Reason, now: Time)
    ensures Calm(s, CancelAll(s, order, reason, now))
    decreases |order|
  {
    if order == [] {
      CalmReflexive(s);
    } else {
      var id := order[0];
      var outcome := Outcome(EndedAs(Cancelled), [], None);
      var s1 := if Live(s, id) then EndTree(s, id, CancelledJob(s.jobs[id], reason, now), outcome, now) else s;
      CancelOneCalm(s, id, reason, now);
      hide Calm, EndTree;
      CancelAllCalm(s1, order[1..], reason, now);
      CalmTransitive(s, s1, CancelAll(s1, order[1..], reason, now));
    }
  }

  lemma CancelOneCalm(s: Store, id: JobId, reason: Reason, now: Time)
    ensures Calm(s, if Live(s, id)
      then EndTree(s, id, CancelledJob(s.jobs[id], reason, now), Outcome(EndedAs(Cancelled), [], None), now) else s)
  {
    CalmReflexive(s) by { hide EndTree; }
    hide Calm, EndTree;
    if Live(s, id) {
      EndTreeCalm(s, id, CancelledJob(s.jobs[id], reason, now), Outcome(EndedAs(Cancelled), [], None), now);
    }
  }

  lemma CleanupCalm(s: Store, id: JobId, attempt: int, failed: bool)
    requires SlotsMatchJobs(s)
    ensures Calm(s, Cleanup(s, id, attempt, failed))
  {
    CalmReflexive(s) by { hide Cleanup; }
    if failed {
      KeepFailedCalm(s, id, attempt) by { hide Calm, Cleanup; }
    } else {
      hide Calm, SlotsMatchJobs;
      FreeSlotCalm(s, id, attempt);
      ReleaseParentCalm(FreeSlot(s, id, attempt), id);
      CalmTransitive(s, FreeSlot(s, id, attempt), ReleaseParent(FreeSlot(s, id, attempt), id));
    }
  }

  lemma KeepFailedCalm(s: Store, id: JobId, attempt: int)
    ensures Calm(s, KeepFailedSlot(s, id, attempt))
  {
    hide Calm;
    SlotsOnlyCalm(s, KeepFailedSlot(s, id, attempt));
  }

  lemma FreeSlotCalm(s: Store, id: JobId, attempt: int)
    ensures Calm(s, FreeSlot(s, id, attempt))
  {
    hide Calm;
    SlotsOnlyCalm(s, FreeSlot(s, id, attempt));
  }

  lemma ReleaseParentCalm(s: Store, p: JobId)
    ensures Calm(s, ReleaseParent(s, p))
  {
    if ReleasesParent(s, p) {
      var g := WaitCount(s, p);
      var s1 := PutWait(s, p, g, WaitAt(s, p, g).(released := true));
      WaitsCalm(s, s1) by { hide Calm; }
      assert FrameMoveCalm(s1, s1.frames[p := s1.frames[p].(state := FrameSuspended)]) by { hide Calm; }
      hide Calm, FrameMoveCalm;
      FramesOnlyCalm(s1, s1.frames[p := s1.frames[p].(state := FrameSuspended)]);
      CalmTransitive(s, s1, ReleaseParent(s, p));
    } else {
      CalmReflexive(s) by { hide Calm; }
    }
  }

  lemma LoseWorkersCalm(s: Store, lost: set<(JobId, int)>)
    ensures Calm(s, LoseWorkers(s, lost))
  {
    hide Calm;
    SlotsOnlyCalm(s, LoseWorkers(s, lost));
  }

  lemma ReconcileCalm(s: Store, id: JobId, attempt: int, owner: Process, alive: set<Process>, proved: bool)
    ensures Calm(s, ReconcileStaleSlot(s, id, attempt, owner, alive, proved).0)
  {
    hide Calm;
    SlotsOnlyCalm(s, ReconcileStaleSlot(s, id, attempt, owner, alive, proved).0);
  }

  lemma ReleaseFailedCalm(s: Store, expected: map<JobId, Reason>, delivered: set<JobId>)
    ensures Calm(s, ReleaseFailed(s, expected, delivered))
  {
    CalmReflexive(s) by { hide ReleaseFailed; }
    assert IndexCalm(s.jobs, s.index, ReleaseFailed(s, expected, delivered).index) by {
      hide JobsCalm, FramesCalm, SlotsCalm;
    }
    hide IndexCalm, JobsCalm, FramesCalm, ReleasesFailure;
  }

  // ----- settled waits -------------------------------------------------------------

  lemma ResumeCalm(s: Store, p: JobId)
    ensures Calm(s, ResumeFrame(s, p))
  {
    CalmReflexive(s) by { hide Calm; }
    if p in s.frames && !s.frames[p].state.FrameEnded? {
      var frames := s.frames[p := s.frames[p].(state := FrameRunning)];
      assert FrameMoveCalm(s, frames) by { hide Calm; }
      hide Calm, FrameMoveCalm;
      FramesOnlyCalm(s, frames);
    }
  }

  lemma DropCalm(s: Store, c: JobId)
    requires c !in s.slots
    ensures Calm(s, DropFrame(s, c))
  {
    assert FrameMoveCalm(s, s.frames - {c}) by { hide Calm; }
    hide Calm, FrameMoveCalm;
    FramesOnlyCalm(s, s.frames - {c});
  }

  lemma EndOwnCalm(s: Store, p: JobId, now: Time)
    ensures Calm(s, EndOwnFrame(s, p, now))
  {
    CalmReflexive(s) by { hide Calm; }
    hide Calm, EndFrame;
    if p in s.jobs && s.jobs[p].status.Terminal() {
      EndOneFrameCalm(s, p,
        Outcome(EndingOf(s.jobs[p].status, s.jobs[p].reason), s.jobs[p].evidence, s.jobs[p].result), now);
    }
  }

  lemma ConsumeOneCalm(s: Store, p: JobId, g: int, now: Time)
    ensures Calm(s, ConsumeOne(s, p, g, now))
  {
    CalmReflexive(s) by { hide ConsumeOne; }
    if p !in s.slots {
      hide Calm, OutcomeReady;
      var s1 := MarkReady(s, p, g);
      MarkReadyCalm(s, p, g);
      MarkReadyRows(s, p, g);
      hide MarkReady;
      if ConsumeReady(s1, p, g) {
        HandOverCalm(s1, p, g, now);
        CalmTransitive(s, s1, ConsumeOne(s, p, g, now));
      }
    }
  }

  lemma HandOverCalm(s: Store, p: JobId, g: int, now: Time)
    requires ConsumeReady(s, p, g)
    ensures var w := WaitAt(s, p, g);
      Calm(s, EndOwnFrame(DropFrame(ResumeFrame(PutWait(s, p, g, w.(consumed := true, acked := false)), p), w.child),
        p, now))
  {
    hide Calm, OutcomeReady, EndFrame;
    var w := WaitAt(s, p, g);
    var s1 := PutWait(s, p, g, w.(consumed := true, acked := false));
    var s2 := ResumeFrame(s1, p);
    var s3 := DropFrame(s2, w.child);
    WaitsCalm(s, s1);
    ResumeCalm(s1, p);
    DropCalm(s2, w.child);
    EndOwnCalm(s3, p, now);
    hide ConsumeReady, ResumeFrame, EndOwnFrame;
    CalmTransitive(s, s1, s2);
    CalmTransitive(s, s2, s3);
    CalmTransitive(s, s3, EndOwnFrame(s3, p, now));
  }

  lemma RetireOneCalm(s: Store, p: JobId, g: int)
    ensures Calm(s, RetireOne(s, p, g))
  {
    CalmReflexive(s) by { hide RetireOne; }
    if RetireReady(s, p, g) {
      hide Calm;
      var w := WaitAt(s, p, g);
      var s1 := PutWait(s, p, g, w.(state := WaitRetired, consumed := true, acked := false));
      WaitsCalm(s, s1);
      DropCalm(s1, w.child);
      CalmTransitive(s, s1, DropFrame(s1, w.child));
    }
  }

  lemma ConsumeAllCalm(s: Store, waits: seq<(JobId, int)>, now: Time)
    ensures Calm(s, ConsumeAll(s, waits, now))
    decreases |waits|
  {
    if waits == [] {
      CalmReflexive(s);
    } else {
      hide Calm, ConsumeOne;
      var s1 := ConsumeOne(s, waits[0].0, waits[0].1, now);
      ConsumeOneCalm(s, waits[0].0, waits[0].1, now);
      ConsumeAllCalm(s1, waits[1..], now);
      CalmTransitive(s, s1, ConsumeAll(s1, waits[1..], now));
    }
  }

  lemma RetireAllCalm(s: Store, waits: seq<(JobId, int)>)
    ensures Calm(s, RetireAll(s, waits))
    decreases |waits|
  {
    if waits == [] {
      CalmReflexive(s);
    } else {
      hide Calm, RetireOne;
      var s1 := RetireOne(s, waits[0].0, waits[0].1);
      RetireOneCalm(s, waits[0].0, waits[0].1);
      RetireAllCalm(s1, waits[1..]);
      CalmTransitive(s, s1, RetireAll(s1, waits[1..]));
    }
  }

  lemma SettleWaitsCalm(s: Store, acked: seq<(JobId, int)>, unread: seq<(JobId, int)>, now: Time)
    ensures Calm(s, SettleWaits(s, acked, unread, now))
  {
    hide Calm, ConsumeAll, RetireAll;
    ConsumeAllCalm(s, acked, now);
    RetireAllCalm(ConsumeAll(s, acked, now), unread);
    CalmTransitive(s, ConsumeAll(s, acked, now), SettleWaits(s, acked, unread, now));
  }

  // ----- a report's bookkeeping ----------------------------------------------------

  lemma PrologueCalm(s: Store, id: JobId, r: Report)
    ensures Calm(s, FinishPrologue(s, id, r))
  {
    var s1 := CountFailure(s, id, r);
    assert Calm(s, s1) by {
      if CountsAsFailure(s, id, r) {
        assert FrameMoveCalm(s, s1.frames) by { hide Calm; }
        FramesOnlyCalm(s, s1.frames) by { hide Calm, FrameMoveCalm; }
      } else {
        CalmReflexive(s);
      }
    }
    hide Calm, CountFailure, MarkReady;
    if id in s1.frames {
      MarkReadyCalm(s1, id, WaitCount(s1, id));
      CalmTransitive(s, s1, FinishPrologue(s, id, r));
    }
  }

  // ----- deadlines -----------------------------------------------------------------

  /** Between two rows of one expiry: calm so far, no remaining row succeeded, and only
      answers were trimmed from the index. */
  ghost predicate Expiring(s0: Store, s: Store, rest: seq<(JobId, Job)>) {
    && Calm(s0, s) && NoneSucceeded(s.jobs, rest) && OnlyAnswersTrimmed(s.jobs, s0.index, s.index)
  }

  ghost predicate NoneSucceeded(jobs: map<JobId, Job>, rest: seq<(JobId, Job)>) {
    forall k :: 0 <= k < |rest| ==> rest[k].0 in jobs && !Success(jobs[rest[k].0])
  }

  ghost predicate OnlyAnswersTrimmed(jobs: map<JobId, Job>, a: map<Identity, JobId>, b: map<Identity, JobId>) {
    forall i :: i in a && i !in b ==> a[i] in jobs && Success(jobs[a[i]])
  }

  /** The rows still to be expired, as they were fetched. */
  ghost predicate Fetched(s0: Store, frames: set<JobId>, rest: seq<(JobId, Job)>) {
    && (forall k :: 0 <= k < |rest| ==> Live(s0, rest[k].0) && rest[k].1 == s0.jobs[rest[k].0] && rest[k].0 in frames)
    && (forall i, j :: 0 <= i < j < |rest| ==> rest[i].0 != rest[j].0)
  }

  lemma FetchedTail(s0: Store, frames: set<JobId>, rest: seq<(JobId, Job)>)
    requires Fetched(s0, frames, rest) && rest != []
    ensures Fetched(s0, frames, rest[1..])
    ensures Live(s0, rest[0].0) && rest[0].1 == s0.jobs[rest[0].0] && rest[0].0 in frames
    ensures forall k :: 0 <= k < |rest[1..]| ==> rest[1..][k].0 != rest[0].0
  {
  }

  /** One record is replaced, and otherwise only live jobs are cancelled. */
  ghost predicate Touched(a: map<JobId, Job>, b: map<JobId, Job>, id: JobId) {
    && b.Keys == a.Keys
    && forall x :: x in a && x != id ==> b[x] == a[x] || (!a[x].status.Terminal() && b[x].status == Cancelled)
  }

  lemma CancelJobsTouches(a: map<JobId, Job>, id: JobId, ended: Job, frames: map<JobId, Frame>, doomed: set<JobId>,
                          now: Time)
    requires id in a && id !in doomed
    ensures var b := CancelJobs(a[id := ended], frames, doomed, now);
      Touched(a, b, id) && b[id] == ended
  {
  }

  lemma PutRowTouches(jobs: map<JobId, Job>, id: JobId, job: Job)
    requires id in jobs
    ensures Touched(jobs, jobs[id := job], id)
  {
  }

  lemma EndTreeRows(s: Store, id: JobId, ended: Job, outcome: Outcome, now: Time)
    ensures var t := EndTree(s, id, ended, outcome, now);
      && t.index == s.index
      && (id !in s.frames ==> t.jobs == s.jobs[id := ended])
      && (id in s.frames ==> t.jobs == CancelJobs(s.jobs[id := ended], s.frames, Descendants(s.edges, id), now))
  {
    hide CancelFrames, EndFrame, Descendants, CancelJobs;
    if id in s.frames {
      var s1 := s.(jobs := s.jobs[id := ended]);
      var s2 := CancelDescendants(s1, id, now);
      assert EndTree(s, id, ended, outcome, now) == s2.(frames := EndFrame(s2.frames, id, outcome, now));
      assert s2.jobs == CancelJobs(s1.jobs, s1.frames, Descendants(s1.edges, id), now);
    }
  }

  lemma NotBelowItself(s: Store, id: JobId)
    requires DepthBounded(s.frames, s.edges)
    ensures id !in Descendants(s.edges, id)
  {
    if id in Descendants(s.edges, id) {
      var n: nat :| Under(s.edges, id, id, n);
      SelfNotBelow(s, id, id, n);
    }
  }

  lemma EndTreeTouches(s: Store, id: JobId, ended: Job, outcome: Outcome, now: Time)
    requires id in s.jobs && DepthBounded(s.frames, s.edges)
    ensures var t := EndTree(s, id, ended, outcome, now);
      t.index == s.index && Touched(s.jobs, t.jobs, id)
  {
    hide EndTree, DepthBounded, Descendants, CancelJobs, Touched;
    EndTreeRows(s, id, ended, outcome, now);
    PutRowTouches(s.jobs, id, ended);
    NotBelowItself(s, id);
    CancelJobsTouches(s.jobs, id, ended, s.frames, Descendants(s.edges, id), now);
  }

  lemma TouchedKeepsRest(a: map<JobId, Job>, b: map<JobId, Job>, id: JobId, rest: seq<(JobId, Job)>)
    requires Touched(a, b, id) && NoneSucceeded(a, rest) && rest != [] && rest[0].0 == id
    requires forall k :: 0 <= k < |rest[1..]| ==> rest[1..][k].0 != id
    ensures NoneSucceeded(b, rest[1..])
  {
    forall k | 0 <= k < |rest[1..]|
      ensures rest[1..][k].0 in b && !Success(b[rest[1..][k].0])
    {
      assert rest[1..][k] == rest[k + 1];
    }
  }

  lemma TouchedKeepsTrimmed(a: map<JobId, Job>, b: map<JobId, Job>, id: JobId, i0: map<Identity, JobId>,
                            i1: map<Identity, JobId>, i2: map<Identity, JobId>)
    requires Touched(a, b, id) && OnlyAnswersTrimmed(a, i0, i1) && OnlyAnswersTrimmed(b, i1, i2)
    requires id in a && !Success(a[id]) && forall i :: i in i1 ==> i in i0 && i1[i] == i0[i]
    ensures OnlyAnswersTrimmed(b, i0, i2)
  {
    forall i | i in i0 && i !in i2
      ensures i0[i] in b && Success(b[i0[i]])
    {
      if i !in i1 {
        var x := i0[i];
        assert x in a && Success(a[x]) && b[x] == a[x];
      }
    }
  }

  lemma EndTreeForgetsRow(s: Store, id: JobId, row: Job, ended: Job, outcome: Outcome, now: Time)
    requires id in s.jobs
    ensures EndTree(s.(jobs := s.jobs[id := row]), id, ended, outcome, now) == EndTree(s, id, ended, outcome, now)
  {
    hide Descendants, CancelJobs, CancelFrames, EndFrame;
    assert s.jobs[id := row][id := ended] == s.jobs[id := ended];
  }

  lemma ExpiredJobCalm(job: Job, now: Time)
    requires !job.status.Terminal()
    ensures JobCalm(job, ExpiredJob(job, now))
  {
  }

  /** Put the fetched record back over a cascade's cancellation: still calm. */
  lemma FetchedRowCalm(s0: Store, s: Store, rest: seq<(JobId, Job)>, id: JobId)
    requires Expiring(s0, s, rest) && rest != [] && rest[0].0 == id && Live(s0, id)
    ensures Calm(s0, s.(jobs := s.jobs[id := s0.jobs[id]]))
  {
    var jobs := s.jobs[id := s0.jobs[id]];
    assert JobsCalm(s0.jobs, jobs) by { hide FramesCalm, SlotsCalm, IndexCalm; }
    assert IndexCalm(jobs, s0.index, s.index) by { hide FramesCalm, SlotsCalm, JobsCalm; }
    hide FramesCalm, IndexCalm, JobsCalm;
  }

  lemma ExpireOneStaysCalm(s0: Store, s: Store, rest: seq<(JobId, Job)>, now: Time)
    requires Expiring(s0, s, rest) && rest != [] && Live(s0, rest[0].0) && rest[0].1 == s0.jobs[rest[0].0]
    ensures Calm(s0, ExpireOne(s, rest[0].0, rest[0].1, now))
    ensures Calm(s0, EndTree(s, rest[0].0, ExpiredJob(rest[0].1, now), Outcome(Expired, rest[0].1.evidence, None), now))
  {
    var id, fetched := rest[0].0, rest[0].1;
    var ended, outcome := ExpiredJob(fetched, now), Outcome(Expired, fetched.evidence, None);
    var s1 := s.(jobs := s.jobs[id := fetched]);
    FetchedRowCalm(s0, s, rest, id) by { hide Calm; }
    ExpiredJobCalm(fetched, now) by { hide JobCalm; }
    hide Calm, JobCalm, EndTree, TrimIndex, ExpiredJob;
    var t := EndTree(s, id, ended, outcome, now);
    EndTreeForgetsRow(s, id, fetched, ended, outcome, now);
    EndTreeCalm(s1, id, ended, outcome, now);
    TrimCalm(t);
    CalmTransitive(s0, s1, t);
    CalmTransitive(s0, t, TrimIndex(t));
  }

  lemma TrimOnlyAnswers(s: Store)
    ensures OnlyAnswersTrimmed(s.jobs, s.index, TrimIndex(s).index) && TrimIndex(s).jobs == s.jobs
  {
  }

  lemma ExpireOneKeepsExpiring(s0: Store, s: Store, rest: seq<(JobId, Job)>, frames: set<JobId>, now: Time)
    requires Expiring(s0, s, rest) && rest != [] && Fetched(s0, frames, rest)
    requires DepthBounded(s.frames, s.edges)
    ensures Expiring(s0, ExpireOne(s, rest[0].0, rest[0].1, now), rest[1..])
  {
    hide Calm, EndTree, DepthBounded, ExpiredJob, TrimIndex, Touched, OnlyAnswersTrimmed, Fetched;
    FetchedTail(s0, frames, rest);
    ExpireOneStaysCalm(s0, s, rest, now);
    var id, fetched := rest[0].0, rest[0].1;
    var ended, outcome := ExpiredJob(fetched, now), Outcome(Expired, fetched.evidence, None);
    assert id in s.jobs && !Success(s.jobs[id]);
    hide NoneSucceeded, Success;
    EndTreeTouches(s, id, ended, outcome, now);
    var t := EndTree(s, id, ended, outcome, now);
    TrimOnlyAnswers(t);
    IndexOnlyShrinks(s0, s);
    TouchedKeepsRest(s.jobs, t.jobs, id, rest);
    TouchedKeepsTrimmed(s.jobs, t.jobs, id, s0.index, s.index, TrimIndex(t).index);
  }

  lemma IndexOnlyShrinks(s: Store, t: Store)
    requires Calm(s, t)
    ensures forall i :: i in t.index ==> i in s.index && t.index[i] == s.index[i]
  {
    hide JobsCalm, FramesCalm, SlotsCalm;
  }

  lemma ExpireAllFrom(s0: Store, s: Store, rest: seq<(JobId, Job)>, now: Time)
    requires TreeInv(s) && Expiring(s0, s, rest) && Fetched(s0, s.frames.Keys, rest)
    ensures Calm(s0, ExpireAll(s, rest, now))
    decreases |rest|
  {
    if rest != [] {
      assert DepthBounded(s.frames, s.edges) by { hide Expiring, DepthBounded; }
      hide TreeInv, Expiring, DepthBounded, ExpireOne, Fetched;
      FetchedTail(s0, s.frames.Keys, rest);
      ExpireOneKeepsExpiring(s0, s, rest, s.frames.Keys, now);
      ExpireOneKeepsTree(s, rest[0].0, rest[0].1, now);
      ExpireAllFrom(s0, ExpireOne(s, rest[0].0, rest[0].1, now), rest[1..], now);
    } else {
      hide Calm, TreeInv;
    }
  }

  lemma DueRowsFetched(s: Store, rows: seq<(JobId, Job)>, now: Time)
    requires TreeInv(s) && DueRows(s, rows, now)
    ensures Expiring(s, s, rows) && Fetched(s, s.frames.Keys, rows)
  {
    EdgesAreJobs(s);
    CalmReflexive(s) by { hide TreeInv; }
    assert Expiring(s, s, rows) by { hide TreeInv, Calm; }
    assert Fetched(s, s.frames.Keys, rows) by { hide TreeInv, Expiring; }
  }

  /** A whole expiry is calm, although a row may overwrite what an earlier cascade wrote. */
  lemma ExpireAllCalm(s: Store, rows: seq<(JobId, Job)>, now: Time)
    requires TreeInv(s) && DueRows(s, rows, now)
    ensures Calm(s, ExpireAll(s, rows, now))
  {
    DueRowsFetched(s, rows, now);
    hide TreeInv, Expiring, Fetched;
    ExpireAllFrom(s, s, rows, now);
  }
}
