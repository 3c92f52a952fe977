/** New jobs and started attempts keep the core. */
module BrokerStarts {
  import opened Prelude
  import opened BrokerModel
  import opened BrokerSteps
  import opened BrokerInvariant
  import opened BrokerTree
  import opened BrokerTreeSteps
  import opened BrokerCalm
  import opened BrokerCalmSteps
  import opened BrokerWrites
  import opened BrokerWriteSteps

  // ----- new jobs ------------------------------------------------------------------

  ghost predicate Untouched(job: Job) {
    job.status.Queued? && job.attempt == 0 && job.answer == "" && job.findings == [] && job.evidence == []
    && job.observations == [] && job.result.None?
  }

  ghost predicate RootsKnown(frames: map<JobId, Frame>) {
    forall id :: id in frames ==> frames[id].root in frames
  }

  /** One fresh job with its frame, and perhaps its edge. */
  ghost predicate AddsJob(s: Store, t: Store, id: JobId) {
    && id !in s.jobs && id in t.jobs && t.jobs == s.jobs[id := t.jobs[id]] && Untouched(t.jobs[id])
    && id in t.frames && t.frames == s.frames[id := t.frames[id]] && !t.frames[id].state.FrameEnded?
    && t.slots == s.slots && t.workers == s.workers && t.outbox == s.outbox
    && t.childPackets == s.childPackets && t.checkpoints == s.checkpoints
    && (t.edges == s.edges || (id in t.edges && t.edges == s.edges[id := t.edges[id]]))
    && s.edges.Keys <= s.jobs.Keys && s.frames.Keys <= s.jobs.Keys && RootsKnown(s.frames)
  }

  lemma AddedJobLog(s: Store, t: Store, id: JobId)
    requires LogInv(s) && AddsJob(s, t, id)
    ensures LogInv(t)
  {
    assert WritesOnly(s, t, id) by { hide JobLog, LogInv, RootsKnown; }
    assert JobLog(t.outbox, t.edges, t.childPackets, id, t.jobs[id]) by { hide LogInv; }
    hide JobLog, WritesOnly, AddsJob, LogInv;
    WriteKeepsLog(s, t, id);
  }

  lemma AddedJobAutomatic(s: Store, t: Store, id: JobId)
    requires AddsJob(s, t, id) && forall x :: x in s.slots ==> x in s.frames
    ensures AutomaticSlots(t) == AutomaticSlots(s)
  {
    forall x | x in s.slots
      ensures Automatic(t, x) == Automatic(s, x)
    {
      assert x in s.frames && s.frames[x].root in s.frames && x != id;
    }
  }

  lemma AddedJobSlots(s: Store, t: Store, id: JobId)
    requires SlotsMatchJobs(s) && SlotsBounded(s) && AddsJob(s, t, id)
    ensures SlotsMatchJobs(t) && SlotsBounded(t)
  {
    hide AddsJob, SlotsMatchJobs, SlotsBounded;
    AddedJobSlotsMatch(s, t, id);
    AddedJobSlotsBounded(s, t, id);
  }

  lemma AddedJobSlotsMatch(s: Store, t: Store, id: JobId)
    requires SlotsMatchJobs(s) && AddsJob(s, t, id)
    ensures SlotsMatchJobs(t)
  {
    hide RootsKnown, Untouched;
  }

  lemma AddedJobSlotsBounded(s: Store, t: Store, id: JobId)
    requires SlotsMatchJobs(s) && SlotsBounded(s) && AddsJob(s, t, id)
    ensures SlotsBounded(t)
  {
    hide AutomaticSlots, AddsJob, SlotsMatchJobs;
    SlotsHaveFrames(s);
    AddedJobAutomatic(s, t, id);
    AddedJobKeepsSlots(s, t, id);
  }

  lemma SlotsHaveFrames(s: Store)
    requires SlotsMatchJobs(s)
    ensures forall x :: x in s.slots ==> x in s.frames
  {
  }

  lemma AddedJobKeepsSlots(s: Store, t: Store, id: JobId)
    requires AddsJob(s, t, id)
    ensures t.slots == s.slots && t.workers == s.workers
  {
  }

  lemma AddedJobRest(cfg: Config, s: Store, t: Store, id: JobId)
    requires CheckpointInv(cfg, s) && SuccessInv(s) && AddsJob(s, t, id)
    ensures CheckpointInv(cfg, t) && SuccessInv(t) && Evolves(s, t)
  {
    hide CheckpointOk, Hollow, RootsKnown;
  }

  lemma AddedJobKeepsCore(cfg: Config, s: Store, t: Store, id: JobId)
    requires Core(cfg, s) && AddsJob(s, t, id) && IndexMatchesJobs(t.jobs, t.index) && AdmissionBounded(t)
    ensures Writes(cfg, s, t)
  {
    hide AddsJob, SlotsMatchJobs, SlotsBounded, AdmissionBounded, LogInv, CheckpointInv, IndexMatchesJobs, SuccessInv,
      Evolves;
    AddedJobLog(s, t, id);
    AddedJobSlots(s, t, id);
    AddedJobRest(cfg, s, t, id);
  }

  /** A private job does not count towards admission. */
  lemma PrivateJobKeepsLoad(s: Store, t: Store, id: JobId)
    requires AdmissionBounded(s) && AddsJob(s, t, id) && IsPrivate(t, id)
    requires forall x :: x in s.jobs && IsPrivate(s, x) ==> IsPrivate(t, x)
    ensures AdmissionBounded(t)
  {
    assert PublicLoad(t) <= PublicLoad(s) by { hide RootsKnown; }
    hide PublicLoad, AddsJob;
    SubsetSize(PublicLoad(t), PublicLoad(s));
  }

  lemma PublicJobLoad(s: Store, t: Store, id: JobId)
    requires |PublicLoad(s)| < PUBLIC_ADMISSION_LIMIT && AddsJob(s, t, id)
    requires t.edges == s.edges && t.preparations == s.preparations
    ensures AdmissionBounded(t)
  {
    assert PublicLoad(t) <= PublicLoad(s) + {id} by { hide RootsKnown; }
    hide PublicLoad, AddsJob;
    SubsetSize(PublicLoad(t), PublicLoad(s) + {id});
  }

  // ----- admission -----------------------------------------------------------------

  lemma TreeFacts(s: Store)
    requires TreeInv(s)
    ensures s.edges.Keys <= s.jobs.Keys && s.frames.Keys <= s.jobs.Keys && RootsKnown(s.frames)
    ensures Rooted(s.frames, s.edges, s.preparations)
  {
    EdgesAreJobs(s);
    hide OneWait, EdgesMatchWaits, FramesMatchWaits, DepthBounded, NoOrphans, OnePreparation, FramesMatchJobs;
  }

  lemma SubmitIndex(s: Store, t: Store, r: Request)
    requires IndexMatchesJobs(s.jobs, s.index) && r.id !in s.jobs
    requires Indexed(s, r.identity).Some? ==> s.jobs[Indexed(s, r.identity).value].status.Terminal()
    requires r.id in t.jobs && t.jobs == s.jobs[r.id := t.jobs[r.id]] && t.jobs[r.id].identity == r.identity
    requires t.index == if r.identity.Some? then s.index[r.identity.value := r.id] else s.index
    ensures IndexMatchesJobs(t.jobs, t.index)
  {
  }

  lemma SubmitWrites(cfg: Config, s: Store, r: Request, now: Time)
    requires Core(cfg, s) && TreeInv(s) && r.id !in s.jobs
    ensures Writes(cfg, s, Submit(cfg, s, r, now).0)
  {
    hide Core, TreeInv, Rooted, RootsKnown, Writes, RefreshedHints, AddsJob;
    TreeFacts(s);
    var (t, reply) := Submit(cfg, s, r, now);
    if reply == Admitted(r.id) && t != s {
      SubmitShape(cfg, s, r, now);
      assert IndexMatchesJobs(s.jobs, s.index) by { IndexOfCore(cfg, s); }
      SubmitIndex(s, t, r) by { hide IndexMatchesJobs, PublicLoad; }
      hide IndexMatchesJobs, CacheReply, Indexed;
      PublicJobLoad(s, t, r.id);
      hide Submit;
      AddedJobKeepsCore(cfg, s, t, r.id);
    } else {
      hide Indexed, CacheReply, PublicLoad;
      Unchanged(cfg, s);
    }
  }

  lemma IndexOfCore(cfg: Config, s: Store)
    requires Core(cfg, s)
    ensures IndexMatchesJobs(s.jobs, s.index)
  {
    hide SlotsMatchJobs, SlotsBounded, AdmissionBounded, LogInv, CheckpointInv, IndexMatchesJobs, SuccessInv;
  }

  lemma SubmitShape(cfg: Config, s: Store, r: Request, now: Time)
    requires r.id !in s.jobs && s.edges.Keys <= s.jobs.Keys && s.frames.Keys <= s.jobs.Keys && RootsKnown(s.frames)
    requires Submit(cfg, s, r, now).1 == Admitted(r.id) && Submit(cfg, s, r, now).0 != s
    ensures AddsJob(s, Submit(cfg, s, r, now).0, r.id)
  {
    hide RefreshedHints, Indexed, CacheReply, PublicLoad, RootsKnown;
  }

  lemma PrepareWrites(cfg: Config, s: Store, id: JobId, scope: Scope, work: Identity, deadline: Time, now: Time,
                      permitted: bool, fitsStorage: bool, stale: seq<JobId>)
    requires Core(cfg, s) && TreeInv(s) && id !in s.jobs
    ensures Writes(cfg, s, Prepare(s, id, scope, work, deadline, now, permitted, fitsStorage, stale).0)
  {
    hide Core, TreeInv, CancelAll, Rooted, RootsKnown, Calm, Writes;
    var t := Prepare(s, id, scope, work, deadline, now, permitted, fitsStorage, stale).0;
    Unchanged(cfg, s);
    if deadline <= now || !permitted || exists j :: j in s.preparations && s.preparations[j] == work {
      assert t == s;
    } else {
      var s1 := CancelAll(s, stale, Other("preparation_source_changed"), now);
      CancelAllKeepsTree(s, stale, Other("preparation_source_changed"), now);
      TreeFacts(s);
      TreeFacts(s1);
      CancelAllCalm(s, stale, Other("preparation_source_changed"), now);
      CalmWrites(cfg, s, s1);
      if fitsStorage {
        CoreOf(cfg, s, s1);
        AddPreparation(cfg, s1, id, scope, work, deadline, now);
        WritesTransitive(cfg, s, s1, t);
      }
    }
  }

  lemma NewPreparationShape(s: Store, t: Store, id: JobId, scope: Scope, work: Identity, deadline: Time, now: Time)
    requires id !in s.jobs && s.edges.Keys <= s.jobs.Keys && s.frames.Keys <= s.jobs.Keys && RootsKnown(s.frames)
    requires t == s.(jobs := s.jobs[id := NewJob(scope, [], deadline, None, now)],
                     frames := s.frames[id := RootFrame(id, deadline, true)],
                     preparations := s.preparations[id := work])
    ensures AddsJob(s, t, id) && IsPrivate(t, id) && (forall x :: x in s.jobs && IsPrivate(s, x) ==> IsPrivate(t, x))
    ensures t.jobs[id].identity.None? && t.index == s.index
  {
    hide RootsKnown;
  }

  lemma AddNamelessKeepsIndex(s: Store, t: Store, id: JobId)
    requires IndexMatchesJobs(s.jobs, s.index) && id !in s.jobs && id in t.jobs && t.jobs == s.jobs[id := t.jobs[id]]
    requires t.jobs[id].identity.None? && t.index == s.index
    ensures IndexMatchesJobs(t.jobs, t.index)
  {
  }

  lemma AddPrivateWrites(cfg: Config, s: Store, t: Store, id: JobId)
    requires Core(cfg, s) && AddsJob(s, t, id) && IsPrivate(t, id)
    requires forall x :: x in s.jobs && IsPrivate(s, x) ==> IsPrivate(t, x)
    requires t.jobs[id].identity.None? && t.index == s.index
    ensures Writes(cfg, s, t)
  {
    AddNamelessKeepsIndex(s, t, id) by {
      hide SlotsMatchJobs, SlotsBounded, AdmissionBounded, LogInv, CheckpointInv, IndexMatchesJobs, SuccessInv,
        RootsKnown;
    }
    assert AdmissionBounded(s);
    hide Core, AddsJob, IndexMatchesJobs, IsPrivate, AdmissionBounded;
    PrivateJobKeepsLoad(s, t, id);
    AddedJobKeepsCore(cfg, s, t, id);
  }

  lemma AddPreparation(cfg: Config, s: Store, id: JobId, scope: Scope, work: Identity, deadline: Time, now: Time)
    requires Core(cfg, s)
    requires id !in s.jobs && s.edges.Keys <= s.jobs.Keys && s.frames.Keys <= s.jobs.Keys && RootsKnown(s.frames)
    ensures Writes(cfg, s, s.(jobs := s.jobs[id := NewJob(scope, [], deadline, None, now)],
                              frames := s.frames[id := RootFrame(id, deadline, true)],
                              preparations := s.preparations[id := work]))
  {
    hide Core, AddsJob, IsPrivate, RootsKnown, Writes;
    var t := s.(jobs := s.jobs[id := NewJob(scope, [], deadline, None, now)],
                frames := s.frames[id := RootFrame(id, deadline, true)],
                preparations := s.preparations[id := work]);
    NewPreparationShape(s, t, id, scope, work, deadline, now);
    AddPrivateWrites(cfg, s, t, id);
  }

  // ----- private waits -------------------------------------------------------------

  /** The parent's own part of a private wait. */
  ghost predicate SleepsOnly(s: Store, t: Store, id: JobId) {
    && id in s.jobs && id in t.jobs && id in s.frames && id in t.frames
    && s.jobs[id].status.Running? && t.jobs[id].status.Yielding? && t.jobs[id].attempt == s.jobs[id].attempt
    && SameLog(s.jobs[id], t.jobs[id])
    && t.frames[id].state.FrameWaiting? && t.frames[id].root == s.frames[id].root
    && t.frames[id].automatic == s.frames[id].automatic
  }

  ghost predicate AddsChild(s: Store, t: Store, id: JobId, child: JobId) {
    && child !in s.jobs && child in t.jobs && child in t.frames && child in t.edges && Untouched(t.jobs[child])
    && t.jobs[child].identity.None? && !t.frames[child].state.FrameEnded?
    && t == s.(jobs := s.jobs[child := t.jobs[child]], frames := s.frames[child := t.frames[child]],
      edges := s.edges[child := t.edges[child]])
    && s.edges.Keys <= s.jobs.Keys && s.frames.Keys <= s.jobs.Keys
  }

  lemma SleepCalm(s: Store, t: Store, id: JobId)
    requires SleepsOnly(s, t, id)
    ensures Calm(s, s.(jobs := s.jobs[id := t.jobs[id]], frames := s.frames[id := t.frames[id]], waits := t.waits))
  {
    var s1 := s.(jobs := s.jobs[id := t.jobs[id]]);
    var s2 := s1.(frames := s.frames[id := t.frames[id]]);
    assert JobCalm(s.jobs[id], t.jobs[id]) by { hide Calm; }
    assert FrameMoveCalm(s1, s2.frames) by { hide Calm, SameLog; }
    hide Calm, SleepsOnly, JobCalm, FrameMoveCalm;
    RowCalm(s, id, t.jobs[id]);
    FramesOnlyCalm(s1, s2.frames);
    WaitsCalm(s2, s2.(waits := t.waits));
    CalmTransitive(s, s1, s2);
    CalmTransitive(s, s2, s2.(waits := t.waits));
  }

  lemma SleepKeepsRoots(s: Store, t: Store, id: JobId)
    requires SleepsOnly(s, t, id) && RootsKnown(s.frames)
    ensures RootsKnown(s.frames[id := t.frames[id]])
  {
  }

  lemma AddChildWrites(cfg: Config, s: Store, t: Store, id: JobId, child: JobId)
    requires Core(cfg, s) && AddsChild(s, t, id, child) && RootsKnown(s.frames)
    ensures Writes(cfg, s, t)
  {
    hide Core, RootsKnown, Writes;
    assert AddsJob(s, t, child) && IsPrivate(t, child) && forall x :: x in s.jobs && IsPrivate(s, x) ==>
      IsPrivate(t, x);
    assert t.jobs[child].identity.None? && t.index == s.index;
    hide AddsJob, AddsChild, IsPrivate;
    AddPrivateWrites(cfg, s, t, child);
  }

  lemma PrivateWaitShape(s: Store, id: JobId, attempt: int, child: JobId, now: Time, alive: set<Process>, room: bool)
    requires child !in s.jobs && id in s.frames && s.edges.Keys <= s.jobs.Keys && s.frames.Keys <= s.jobs.Keys
    requires PrivateWait(s, id, attempt, child, now, alive, room).1
    ensures var t := PrivateWait(s, id, attempt, child, now, alive, room).0;
      && SleepsOnly(s, t, id)
      && AddsChild(s.(jobs := s.jobs[id := t.jobs[id]], frames := s.frames[id := t.frames[id]], waits := t.waits), t,
        id, child)
  {
    hide WaitCount, HasWait, WaitAt;
    var t := PrivateWait(s, id, attempt, child, now, alive, room).0;
    assert t.jobs == s.jobs[id := t.jobs[id]][child := t.jobs[child]];
    assert t.frames == s.frames[id := t.frames[id]][child := t.frames[child]];
  }

  lemma PrivateWaitWrites(cfg: Config, s: Store, id: JobId, attempt: int, child: JobId, now: Time, alive: set<Process>,
                          room: bool)
    requires Core(cfg, s) && TreeInv(s) && child !in s.jobs
    ensures Writes(cfg, s, PrivateWait(s, id, attempt, child, now, alive, room).0)
  {
    hide Core, TreeInv, Rooted, Writes, SleepsOnly, AddsChild, RootsKnown, Calm;
    var (t, accepted) := PrivateWait(s, id, attempt, child, now, alive, room);
    if accepted {
      TreeFacts(s);
      EdgesAreJobs(s);
      assert Live(s, id) && id in s.frames;
      PrivateWaitShape(s, id, attempt, child, now, alive, room);
      hide PrivateWait;
      var s1 := s.(jobs := s.jobs[id := t.jobs[id]], frames := s.frames[id := t.frames[id]], waits := t.waits);
      SleepCalm(s, t, id);
      CalmWrites(cfg, s, s1);
      SleepKeepsRoots(s, t, id);
      CoreOf(cfg, s, s1);
      AddChildWrites(cfg, s1, t, id, child);
      WritesTransitive(cfg, s, s1, t);
    } else {
      assert t == s;
      Unchanged(cfg, s);
    }
  }
}
