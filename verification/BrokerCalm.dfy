/** Most transactions only move statuses, leases, frames and slots. Such a calm change keeps
    every group of the invariant, and calm changes compose. */
module BrokerCalm {
  import opened Prelude
  import opened BrokerModel
  import opened BrokerSteps
  import opened BrokerInvariant

  ghost predicate SameLog(x: Job, y: Job) {
    && y.evidence == x.evidence && y.observations == x.observations && y.findings == x.findings
    && y.result == x.result && y.answer == x.answer
    && y.scope == x.scope && y.identity == x.identity && y.hints == x.hints && y.deadline == x.deadline
  }

  predicate Success(job: Job) {
    job.status.Completed? || job.status.Partial?
  }

  ghost predicate JobCalm(x: Job, y: Job) {
    && SameLog(x, y) && x.attempt <= y.attempt
    && (x.status.Terminal() ==> y == x)
    && (!y.status.Terminal() ==> y.attempt == x.attempt && (y.status.Running? ==> x.status.Running?))
    && (Success(y) && y != x ==> !Hollow(x.answer, x.findings, x.evidence))
  }

  ghost predicate JobsCalm(a: map<JobId, Job>, b: map<JobId, Job>) {
    b.Keys == a.Keys && forall id :: id in b ==> JobCalm(a[id], b[id])
  }

  /** An outcome that repeats the job's own packets. */
  ghost predicate OwnOutcome(o: Outcome, job: Job) {
    && (o.evidence == [] || o.evidence == job.evidence)
    && (o.result.None? || o.result == job.result)
  }

  ghost predicate FramesCalm(jobs: map<JobId, Job>, a: map<JobId, Frame>, b: map<JobId, Frame>) {
    && b.Keys <= a.Keys
    && forall id :: id in b ==>
         && b[id].root == a[id].root && b[id].automatic == a[id].automatic
         && (b[id].state.FrameEnded? ==>
               b[id].state == a[id].state || (id in jobs && OwnOutcome(b[id].state.outcome, jobs[id])))
  }

  ghost predicate SlotsCalm(s: Store, t: Store) {
    && t.workers <= s.workers
    && (forall id :: id in t.slots ==>
          && id in s.slots && t.slots[id].attempt == s.slots[id].attempt
          && (t.slots[id].cleanupFailed ==> s.slots[id].cleanupFailed || (id, t.slots[id].attempt) !in t.workers)
          && (id in s.frames ==>
               id in t.frames && (t.frames[id].state.FrameSuspended? ==> s.frames[id].state.FrameSuspended?)))
  }

  ghost predicate IndexCalm(jobs: map<JobId, Job>, a: map<Identity, JobId>, b: map<Identity, JobId>) {
    && (forall i :: i in b ==> i in a && b[i] == a[i])
    && (forall i :: i in a && i !in b ==> a[i] in jobs && jobs[a[i]].status.Terminal())
  }

  ghost predicate SameLedger(s: Store, t: Store) {
    t.outbox == s.outbox && t.childPackets == s.childPackets && t.checkpoints == s.checkpoints
    && t.edges == s.edges && t.preparations == s.preparations
  }

  ghost predicate Calm(s: Store, t: Store) {
    && SameLedger(s, t) && JobsCalm(s.jobs, t.jobs) && FramesCalm(s.jobs, s.frames, t.frames)
    && SlotsCalm(s, t) && IndexCalm(t.jobs, s.index, t.index)
  }

  // ----- composing -----------------------------------------------------------------

  lemma JobsCalmTransitive(a: map<JobId, Job>, b: map<JobId, Job>, c: map<JobId, Job>)
    requires JobsCalm(a, b) && JobsCalm(b, c)
    ensures JobsCalm(a, c)
  {
    forall id | id in c
      ensures JobCalm(a[id], c[id])
    {
      assert JobCalm(a[id], b[id]) && JobCalm(b[id], c[id]);
    }
  }

  lemma FramesCalmTransitive(jobs: map<JobId, Job>, jobs': map<JobId, Job>, a: map<JobId, Frame>, b: map<JobId, Frame>,
                             c: map<JobId, Frame>)
    requires JobsCalm(jobs, jobs') && FramesCalm(jobs, a, b) && FramesCalm(jobs', b, c)
    ensures FramesCalm(jobs, a, c)
  {
    forall id | id in c && c[id].state.FrameEnded? && c[id].state != a[id].state
      ensures id in jobs && OwnOutcome(c[id].state.outcome, jobs[id])
    {
      if c[id].state != b[id].state {
        assert JobCalm(jobs[id], jobs'[id]);
      }
    }
  }

  lemma IndexCalmTransitive(jobs: map<JobId, Job>, jobs': map<JobId, Job>, a: map<Identity, JobId>,
                            b: map<Identity, JobId>, c: map<Identity, JobId>)
    requires IndexCalm(jobs, a, b) && IndexCalm(jobs', b, c) && JobsCalm(jobs, jobs')
    ensures IndexCalm(jobs', a, c)
  {
    forall i | i in a && i !in c
      ensures a[i] in jobs' && jobs'[a[i]].status.Terminal()
    {
      if i !in b {
        var id := a[i];
        assert id in jobs' && JobCalm(jobs[id], jobs'[id]);
      }
    }
  }

  lemma SlotsCalmTransitive(s: Store, t: Store, u: Store)
    requires SlotsCalm(s, t) && SlotsCalm(t, u)
    ensures SlotsCalm(s, u)
  {
  }

  lemma CalmTransitive(s: Store, t: Store, u: Store)
    requires Calm(s, t) && Calm(t, u)
    ensures Calm(s, u)
  {
    hide JobsCalm, FramesCalm, SlotsCalm, IndexCalm;
    JobsCalmTransitive(s.jobs, t.jobs, u.jobs);
    FramesCalmTransitive(s.jobs, t.jobs, s.frames, t.frames, u.frames);
    SlotsCalmTransitive(s, t, u);
    IndexCalmTransitive(t.jobs, u.jobs, s.index, t.index, u.index);
  }

  lemma CalmReflexive(s: Store)
    ensures Calm(s, s)
  {
  }

  lemma CalmEvolves(s: Store, t: Store)
    requires Calm(s, t)
    ensures Evolves(s, t)
  {
    forall id | id in s.jobs
      ensures id in t.jobs && JobEvolves(s.jobs[id], t.jobs[id])
    {
      assert JobCalm(s.jobs[id], t.jobs[id]);
    }
  }

  // ----- what calm changes keep ----------------------------------------------------

  lemma CalmKeepsSlots(s: Store, t: Store)
    requires SlotsMatchJobs(s) && Calm(s, t)
    ensures SlotsMatchJobs(t)
  {
    forall id | id in t.slots
      ensures id in t.jobs && id in t.frames && t.slots[id].attempt <= t.jobs[id].attempt
        && (!t.jobs[id].status.Terminal() ==> t.slots[id].attempt == t.jobs[id].attempt)
        && !t.frames[id].state.FrameSuspended?
        && (t.slots[id].cleanupFailed ==> (id, t.slots[id].attempt) !in t.workers)
    {
      assert id in s.slots && JobCalm(s.jobs[id], t.jobs[id]);
    }
    forall w | w in t.workers
      ensures w.0 in t.jobs && w.1 <= t.jobs[w.0].attempt
    {
      var id := w.0;
      assert w in s.workers && id in t.jobs && JobCalm(s.jobs[id], t.jobs[id]);
    }
  }

  lemma CalmKeepsBounds(s: Store, t: Store)
    requires SlotsBounded(s) && AdmissionBounded(s) && SlotsMatchJobs(s) && Rooted(s.frames, s.edges, s.preparations)
    requires Calm(s, t)
    ensures SlotsBounded(t) && AdmissionBounded(t)
  {
    assert |t.slots| <= |s.slots| by {
      assert forall id :: id in t.slots ==> id in s.slots;
      SubsetSize(t.slots.Keys, s.slots.Keys);
      assert |t.slots.Keys| == |t.slots| && |s.slots.Keys| == |s.slots|;
    }
    assert AutomaticSlots(t) <= AutomaticSlots(s) by { AutomaticSlotsShrink(s, t); }
    SubsetSize(AutomaticSlots(t), AutomaticSlots(s));
    assert PublicLoad(t) <= PublicLoad(s) by { PublicLoadShrinks(s, t); }
    SubsetSize(PublicLoad(t), PublicLoad(s));
  }

  lemma AutomaticSlotsShrink(s: Store, t: Store)
    requires SlotsMatchJobs(s) && Rooted(s.frames, s.edges, s.preparations) && Calm(s, t)
    ensures AutomaticSlots(t) <= AutomaticSlots(s)
  {
    hide JobsCalm, IndexCalm, SameLedger;
    forall id | id in AutomaticSlots(t)
      ensures id in AutomaticSlots(s)
    {
      assert id in s.slots && id in s.frames && s.frames[id].root in s.frames;
    }
  }

  lemma PublicLoadShrinks(s: Store, t: Store)
    requires SlotsMatchJobs(s) && Calm(s, t)
    ensures PublicLoad(t) <= PublicLoad(s)
  {
    hide FramesCalm, IndexCalm;
    forall id | id in PublicLoad(t)
      ensures id in PublicLoad(s)
    {
      assert JobCalm(s.jobs[id], t.jobs[id]);
    }
  }

  lemma CalmKeepsLog(s: Store, t: Store)
    requires LogInv(s) && Calm(s, t)
    ensures LogInv(t)
  {
    CalmKeepsJobLogs(s, t);
    CalmKeepsOutcomes(s, t);
    hide SlotsCalm, IndexCalm, JobLog, PacketLogged, OutcomeOwned, JobsCalm, FramesCalm;
    assert t.jobs.Keys == s.jobs.Keys;
  }

  lemma CalmKeepsJobLogs(s: Store, t: Store)
    requires LogInv(s) && Calm(s, t)
    ensures t.jobs.Keys == s.jobs.Keys
    ensures forall id :: id in t.jobs ==> JobLog(t.outbox, t.edges, t.childPackets, id, t.jobs[id])
    ensures forall key :: key in t.childPackets ==> PacketLogged(t.jobs, t.edges, key, t.childPackets[key])
  {
    hide SlotsCalm, IndexCalm, FramesCalm, OutcomeOwned;
    forall id | id in t.jobs
      ensures JobLog(t.outbox, t.edges, t.childPackets, id, t.jobs[id])
    {
      assert JobCalm(s.jobs[id], t.jobs[id]);
      assert JobLog(s.outbox, s.edges, s.childPackets, id, s.jobs[id]);
    }
    forall key | key in t.childPackets
      ensures PacketLogged(t.jobs, t.edges, key, t.childPackets[key])
    {
      assert PacketLogged(s.jobs, s.edges, key, s.childPackets[key]);
      assert JobCalm(s.jobs[key.parent], t.jobs[key.parent]);
    }
  }

  lemma CalmKeepsOutcomes(s: Store, t: Store)
    requires LogInv(s) && Calm(s, t)
    ensures forall id :: id in t.frames && t.frames[id].state.FrameEnded? ==>
      OutcomeOwned(t.outbox, id, t.frames[id].state.outcome)
  {
    hide SlotsCalm, IndexCalm, JobsCalm, PacketLogged, OutboxOrdered, LogMatchesEvidence, ChildEntry;
    forall id | id in t.frames && t.frames[id].state.FrameEnded?
      ensures OutcomeOwned(t.outbox, id, t.frames[id].state.outcome)
    {
      if t.frames[id].state == s.frames[id].state {
        assert OutcomeOwned(s.outbox, id, s.frames[id].state.outcome);
      } else {
        assert JobLog(s.outbox, s.edges, s.childPackets, id, s.jobs[id]);
      }
    }
  }

  lemma CalmKeepsCheckpoints(cfg: Config, s: Store, t: Store)
    requires CheckpointInv(cfg, s) && Calm(s, t)
    ensures CheckpointInv(cfg, t)
  {
    hide SlotsCalm, IndexCalm, FramesCalm, FramesFaithful;
    forall id | id in t.checkpoints
      ensures id in t.jobs && CheckpointOk(cfg, t.checkpoints[id], t.jobs[id])
    {
      assert JobCalm(s.jobs[id], t.jobs[id]);
    }
  }

  lemma CalmKeepsIndex(s: Store, t: Store)
    requires IndexMatchesJobs(s.jobs, s.index) && Calm(s, t)
    ensures IndexMatchesJobs(t.jobs, t.index)
  {
    hide SlotsCalm, FramesCalm, SameLedger;
    forall i | i in t.index
      ensures t.index[i] in t.jobs && t.jobs[t.index[i]].identity == Some(i)
    {
      assert JobCalm(s.jobs[t.index[i]], t.jobs[t.index[i]]);
    }
    forall id | id in t.jobs && !t.jobs[id].status.Terminal() && t.jobs[id].identity.Some?
      ensures t.jobs[id].identity.value in t.index && t.index[t.jobs[id].identity.value] == id
    {
      assert JobCalm(s.jobs[id], t.jobs[id]);
    }
  }

  lemma CalmKeepsSuccess(s: Store, t: Store)
    requires SuccessInv(s) && Calm(s, t)
    ensures SuccessInv(t)
  {
    hide SlotsCalm, FramesCalm, SameLedger, IndexCalm, Hollow;
    forall id | id in t.jobs && Success(t.jobs[id])
      ensures !Hollow(t.jobs[id].answer, t.jobs[id].findings, t.jobs[id].evidence)
    {
      assert JobCalm(s.jobs[id], t.jobs[id]);
    }
  }

  /** Everything but the tree and the fifty-answer bound follows from calm. */
  ghost predicate Core(cfg: Config, s: Store) {
    && SlotsMatchJobs(s) && SlotsBounded(s) && AdmissionBounded(s) && LogInv(s) && CheckpointInv(cfg, s)
    && IndexMatchesJobs(s.jobs, s.index) && SuccessInv(s)
  }

  lemma CalmKeepsCore(cfg: Config, s: Store, t: Store)
    requires Core(cfg, s) && Rooted(s.frames, s.edges, s.preparations) && Calm(s, t)
    ensures Core(cfg, t)
  {
    hide Calm, SlotsMatchJobs, SlotsBounded, AdmissionBounded, LogInv, CheckpointInv, IndexMatchesJobs, SuccessInv,
      Rooted;
    CalmKeepsSlots(s, t);
    CalmKeepsBounds(s, t);
    CalmKeepsLog(s, t);
    CalmKeepsCheckpoints(cfg, s, t);
    CalmKeepsIndex(s, t);
    CalmKeepsSuccess(s, t);
  }

  // ----- the fifty newest answers --------------------------------------------------

  /** Different index entries name different jobs. */
  ghost predicate IndexFaithful(s: Store) {
    forall i :: i in s.index ==> s.index[i] in s.jobs && s.jobs[s.index[i]].identity == Some(i)
  }

  /** Trimming leaves at most fifty answers, whatever was indexed before. */
  lemma TrimBounds(s: Store)
    requires IndexFaithful(s)
    ensures |AnsweredSet(TrimIndex(s))| <= INDEX_CAPACITY
  {
    var kept := AnsweredSet(TrimIndex(s));
    assert forall i :: i in kept ==> Answered(s, i) && |NewerAnswers(s, i)| < INDEX_CAPACITY;
    if kept != {} {
      hide TrimIndex, CacheEligible;
      var oldest := Oldest(s, kept);
      assert kept - {oldest} <= NewerAnswers(s, oldest);
      SubsetSize(kept - {oldest}, NewerAnswers(s, oldest));
    }
  }

  /** Among several answers there is an oldest one. */
  lemma Oldest(s: Store, among: set<Identity>) returns (oldest: Identity)
    requires IndexFaithful(s) && among != {} && forall i :: i in among ==> Answered(s, i)
    ensures oldest in among
    ensures forall i :: i in among && i != oldest ==> Answered(s, i) && Answered(s, oldest) && Newer(s, i, oldest)
  {
    var pick :| pick in among;
    var rest := among - {pick};
    if rest == {} {
      oldest := pick;
      assert forall i :: i in among ==> i == pick || i in rest;
    } else {
      var o := Oldest(s, rest);
      assert s.index[pick] != s.index[o];
      oldest := if Newer(s, pick, o) then o else pick;
      forall i | i in among && i != oldest
        ensures Answered(s, i) && Answered(s, oldest) && Newer(s, i, oldest)
      {
        assert i == pick || i in rest;
      }
    }
  }
}
