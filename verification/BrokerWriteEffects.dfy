/** What a running worker's writes are accepted for and what they store, said of the rows
    themselves: the fence, observations, checkpoints and private waits. */
module BrokerWriteEffects {
  import opened Prelude
  import opened BrokerModel
  import opened BrokerSteps
  import opened BrokerInvariant
  import opened BrokerTree
  import opened BrokerTreeSteps
  import opened BrokerCalm
  import opened BrokerCalmSteps
  import opened BrokerRuns
  import opened BrokerSafety

  /** The job runs this very attempt, under its lease or under a slot of this attempt whose
      recorded owner is alive. */
  ghost predicate HoldsFence(s: Store, id: JobId, attempt: int, now: Time, alive: set<Process>) {
    && id in s.jobs && s.jobs[id].status == Running && s.jobs[id].attempt == attempt
    && (s.jobs[id].lease > now
        || exists p :: p in alive && id in s.slots && s.slots[id].attempt == attempt && s.slots[id].owner == Some(p))
  }

  lemma FenceIs(s: Store, id: JobId, attempt: int, now: Time, alive: set<Process>)
    ensures IsRunning(s, id, attempt, now, alive) <==> HoldsFence(s, id, attempt, now, alive)
    ensures HoldsFence(s, id, attempt, now, alive) ==> id in s.jobs
  {
  }

  // ----- observations --------------------------------------------------------------

  ghost predicate ObservationStored(cfg: Config, s: Store, t: Store, id: JobId, text: string, now: Time) {
    && id in s.jobs && id in t.jobs && t == s.(outbox := t.outbox, jobs := t.jobs)
    && t.outbox == s.outbox + [Row(id, [])] && t.jobs == s.jobs[id := t.jobs[id]]
    && t.jobs[id].evidence == s.jobs[id].evidence + [|s.outbox|]
    && t.jobs[id].observations == s.jobs[id].observations + [Observation(|s.outbox|, Tool(text), None)]
    && t.jobs[id].lease == now + cfg.leaseSeconds && t.jobs[id].updated == now && SameVerdict(s.jobs[id], t.jobs[id])
  }

  /** An observation is accepted exactly behind the fence and within the storage cap, and then
      its packet is the next outbox row and the last entry of log and evidence. */
  lemma ObservationIsStored(cfg: Config, s: Store, id: JobId, attempt: int, text: string, now: Time,
                            alive: set<Process>, fits: bool)
    ensures var (t, packet) := Observe(cfg, s, id, attempt, text, now, alive, fits);
      if HoldsFence(s, id, attempt, now, alive) && fits
      then packet == Some(|s.outbox|) && ObservationStored(cfg, s, t, id, text, now)
      else packet == None && t == s
  {
    FenceIs(s, id, attempt, now, alive);
    hide IsRunning, HoldsFence;
  }

  /** Whatever is reported at the end is as it was. */
  ghost predicate SameVerdict(x: Job, y: Job) {
    && y.status == x.status && y.attempt == x.attempt && y.answer == x.answer && y.findings == x.findings
    && y.result == x.result && y.reason == x.reason && y.hints == x.hints && y.deadline == x.deadline
    && y.identity == x.identity && y.scope == x.scope && y.available == x.available
  }

  // ----- checkpoints ---------------------------------------------------------------

  /** A frame may stand for a log entry: it repeats the body, or it marks one that is over the
      frame cap together with the frame's own call. */
  ghost predicate StandsFor(cfg: Config, frame: Observation, entry: Observation) {
    && frame.id == entry.id && cfg.frameBytes(frame) <= 32768
    && (frame.body == entry.body || (frame.body == Omitted && cfg.frameBytes(entry.(call := frame.call)) > 32768))
  }

  /** The frames stand for log entries at these places, in the log's order. */
  ghost predicate StandAt(cfg: Config, frames: seq<Observation>, log: seq<Observation>, at: seq<int>) {
    && |at| == |frames|
    && (forall i :: 0 <= i < |at| ==> 0 <= at[i] < |log| && StandsFor(cfg, frames[i], log[at[i]]))
    && (forall i, j :: 0 <= i < j < |at| ==> at[i] < at[j])
  }

  lemma PlacesExist(cfg: Config, job: Job, frames: seq<Observation>)
    requires LogMatchesEvidence(job) && CheckpointAccepted(cfg, job, frames)
    ensures exists at :: StandAt(cfg, frames, job.observations, at)
  {
    hide LogMatchesEvidence;
    var at := seq(|frames|, (i: int) requires 0 <= i < |frames| => Position(job.observations, frames[i].id));
    assert StandAt(cfg, frames, job.observations, at);
  }

  lemma PlaceIsPosition(job: Job, id: PacketId, k: int)
    requires LogMatchesEvidence(job) && 0 <= k < |job.observations| && job.observations[k].id == id
    ensures Position(job.observations, id) == k && id in job.evidence
  {
    LogIdsAscend(job);
    assert job.evidence[k] == id;
  }

  lemma PlacesAccepted(cfg: Config, job: Job, frames: seq<Observation>, at: seq<int>)
    requires LogMatchesEvidence(job) && StandAt(cfg, frames, job.observations, at)
    requires |frames| <= 24 && cfg.checkpointBytes(frames) <= 98304
    ensures CheckpointAccepted(cfg, job, frames)
  {
    hide LogMatchesEvidence;
    forall i | 0 <= i < |frames|
      ensures frames[i].id in job.evidence && Position(job.observations, frames[i].id) == at[i]
    {
      PlaceIsPosition(job, frames[i].id, at[i]);
    }
  }

  /** At most 24 frames of at most 96 KiB, for the job's own scope, that stand for log entries
      in the log's order. */
  ghost predicate MaySave(cfg: Config, x: Job, frames: seq<Observation>, scope: Option<Scope>) {
    && (scope == None || scope == Some(x.scope)) && |frames| <= 24 && cfg.checkpointBytes(frames) <= 98304
    && exists at :: StandAt(cfg, frames, x.observations, at)
  }

  ghost predicate CheckpointStored(cfg: Config, s: Store, t: Store, id: JobId, attempt: int, frames: seq<Observation>,
                                   now: Time) {
    && id in s.jobs && id in t.jobs && t == s.(checkpoints := t.checkpoints, jobs := t.jobs)
    && t.checkpoints == s.checkpoints[id := Checkpoint(s.jobs[id].scope, attempt, frames)]
    && t.jobs == s.jobs[id := t.jobs[id]]
    && t.jobs[id].evidence == s.jobs[id].evidence && t.jobs[id].observations == s.jobs[id].observations
    && t.jobs[id].lease == now + cfg.leaseSeconds && t.jobs[id].updated == now && SameVerdict(s.jobs[id], t.jobs[id])
  }

  /** A checkpoint is accepted exactly behind the fence, if it may be saved and fits; then it
      replaces the job's row. */
  lemma CheckpointIsStored(cfg: Config, s: Store, id: JobId, attempt: int, frames: seq<Observation>,
                           scope: Option<Scope>, now: Time, alive: set<Process>, fits: bool)
    requires id in s.jobs ==> LogMatchesEvidence(s.jobs[id])
    ensures var (t, accepted) := WriteCheckpoint(cfg, s, id, attempt, frames, scope, now, alive, fits);
      && (accepted <==> HoldsFence(s, id, attempt, now, alive) && MaySave(cfg, s.jobs[id], frames, scope) && fits)
      && if accepted then CheckpointStored(cfg, s, t, id, attempt, frames, now) else t == s
  {
    FenceIs(s, id, attempt, now, alive);
    if id in s.jobs {
      AcceptedIff(cfg, s.jobs[id], frames);
    }
    hide IsRunning, HoldsFence, CheckpointAccepted, StandAt, LogMatchesEvidence;
  }

  lemma AcceptedIff(cfg: Config, job: Job, frames: seq<Observation>)
    requires LogMatchesEvidence(job)
    ensures CheckpointAccepted(cfg, job, frames) <==>
      && |frames| <= 24 && cfg.checkpointBytes(frames) <= 98304
      && exists at :: StandAt(cfg, frames, job.observations, at)
  {
    if CheckpointAccepted(cfg, job, frames) {
      PlacesExist(cfg, job, frames);
    }
    hide CheckpointAccepted, StandAt, LogMatchesEvidence;
    if at :| StandAt(cfg, frames, job.observations, at) && |frames| <= 24 && cfg.checkpointBytes(frames) <= 98304 {
      PlacesAccepted(cfg, job, frames, at);
    }
  }

  lemma CheckpointDistinct(cfg: Config, s: Store, id: JobId)
    requires Inv(cfg, s) && id in s.checkpoints
    ensures EachOnce(s.checkpoints[id].frames)
  {
    CheckpointOf(cfg, s, id) by { hide Inv, CheckpointOk; }
    hide Inv, FramesFaithful, EachOnce;
  }

  lemma FrameShown(frames: seq<Observation>, o: Observation)
    requires EachOnce(frames)
    ensures forall i :: 0 <= i < |frames| && frames[i].id == o.id ==> SavedFrame(frames, o) == frames[i]
    ensures (forall i :: 0 <= i < |frames| ==> frames[i].id != o.id) ==> SavedFrame(frames, o) == o
  {
    forall i | 0 <= i < |frames| && frames[i].id == o.id
      ensures SavedFrame(frames, o) == frames[i]
    {
      assert frames[Position(frames, o.id)].id == frames[i].id;
    }
  }

  /** In any reachable store, readers see a checkpoint's frame wherever one was saved, and the
      raw entry everywhere else. */
  lemma ReadersSeeFrames(cfg: Config, run: seq<Event>, id: JobId, k: int)
    requires Run(cfg, EMPTY, run) && id in After(cfg, EMPTY, run).jobs
    requires 0 <= k < |After(cfg, EMPTY, run).jobs[id].observations|
    ensures var s := After(cfg, EMPTY, run);
      var raw, shown := s.jobs[id].observations, PublicObservations(s, id);
      && |shown| == |raw|
      && (id !in s.checkpoints ==> shown[k] == raw[k])
      && (id in s.checkpoints ==>
            && (forall i :: 0 <= i < |s.checkpoints[id].frames| && s.checkpoints[id].frames[i].id == raw[k].id ==>
                  shown[k] == s.checkpoints[id].frames[i])
            && ((forall i :: 0 <= i < |s.checkpoints[id].frames| ==> s.checkpoints[id].frames[i].id != raw[k].id) ==>
                  shown[k] == raw[k]))
  {
    var s := After(cfg, EMPTY, run);
    ReachableInvariant(cfg, run);
    hide Inv, Run, After;
    if id in s.checkpoints {
      CheckpointDistinct(cfg, s, id);
      FrameShown(s.checkpoints[id].frames, s.jobs[id].observations[k]);
    }
  }

  // ----- private waits -------------------------------------------------------------

  /** What a running job may still ask for: a child below the depth limit, before its deadline,
      within its budgets, and only if it never asked before. */
  ghost predicate MayAskOnce(s: Store, id: JobId, now: Time, room: bool)
    requires id in s.jobs
  {
    && room && id in s.frames && id !in s.waits
    && s.jobs[id].deadline.Some? && now < s.jobs[id].deadline.value <= s.frames[id].deadline
    && s.frames[id].depth < 2
  }

  lemma WaitingParts(s: Store, id: JobId)
    requires TreeInv(s) && id in s.jobs && !s.jobs[id].status.Terminal()
    ensures id in s.frames && !s.frames[id].state.FrameEnded?
    ensures id in s.waits ==> |s.waits[id]| == 1 && !s.waits[id][0].consumed
    ensures id in s.frames && s.frames[id].root in s.frames
    ensures s.frames[id].automatic == s.frames[s.frames[id].root].automatic
  {
  }

  lemma MayWaitIs(s: Store, id: JobId, now: Time, room: bool)
    requires TreeInv(s) && id in s.jobs && !s.jobs[id].status.Terminal()
    ensures MayWait(s, id, now, room) <==> MayAskOnce(s, id, now, room)
  {
    WaitingParts(s, id);
    hide TreeInv;
  }

  /** A wait is accepted exactly behind the fence from a job that may ask; then the child is
      queued in the parent's scope with the parent's deadline and nothing else, one level
      deeper under the same root, and the parent yields and waits for it. */
  lemma WaitIsRegistered(s: Store, id: JobId, attempt: int, child: JobId, now: Time, alive: set<Process>, room: bool)
    requires TreeInv(s) && child !in s.jobs
    ensures var (t, accepted) := PrivateWait(s, id, attempt, child, now, alive, room);
      && (accepted <==> HoldsFence(s, id, attempt, now, alive) && MayAskOnce(s, id, now, room))
      && if accepted then WaitRegistered(s, t, id, child, now) else t == s
  {
    FenceIs(s, id, attempt, now, alive);
    if IsRunning(s, id, attempt, now, alive) {
      MayWaitIs(s, id, now, room);
      WaitingParts(s, id);
      hide IsRunning, HoldsFence, TreeInv, MayWait, RegisterChild, WaitRegistered;
      if MayWait(s, id, now, room) {
        RegisteredIs(s, id, child, now);
      }
    }
  }

  ghost predicate WaitRegistered(s: Store, t: Store, id: JobId, child: JobId, now: Time) {
    && id in s.jobs && id in s.frames && s.jobs[id].deadline.Some? && id != child
    && t == s.(jobs := t.jobs, frames := t.frames, edges := t.edges, waits := t.waits)
    && t.jobs == s.jobs[child := Job(s.jobs[id].scope, Queued, 0, "", [], [], [], None, [], s.jobs[id].deadline, None,
                                     NoReason, now, 0.0, 0.0)]
                       [id := s.jobs[id].(status := Yielding, lease := 0.0, available := now, updated := now)]
    && t.frames == s.frames[child := Frame(s.frames[id].root, Some(id), 0, s.frames[id].depth + 1,
                                           s.jobs[id].deadline.value, 0, s.frames[id].automatic, FrameQueued)]
                           [id := s.frames[id].(generation := 1, state := FrameWaiting)]
    && t.edges == s.edges[child := Edge(id, 1, s.frames[id].depth + 1)]
    && t.waits == s.waits[id := [Wait(child, WaitOpen, false, false, false)]]
  }

  lemma RegisteredIs(s: Store, id: JobId, child: JobId, now: Time)
    requires id in s.jobs && id in s.frames && id !in s.waits && s.jobs[id].deadline.Some? && child !in s.jobs
    requires s.frames[id].root in s.frames && s.frames[id].automatic == s.frames[s.frames[id].root].automatic
    ensures WaitRegistered(s, RegisterChild(s, id, child, now), id, child, now)
  {
    var w := Wait(child, WaitOpen, false, false, false);
    assert [] + [w] == [w];
  }
}
