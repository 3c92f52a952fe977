/** What holds of the broker's store in every reachable state, in six groups, and what every
    transaction keeps between its two states. */
module BrokerInvariant {
  import opened Prelude
  import opened BrokerModel
  import opened BrokerSteps

  // ----- the tree of frames --------------------------------------------------------
  // The tree only depends on the job ids, on which of them are terminal, and on the frame
  // tables; its predicates take exactly those.

  function EndedSet(jobs: map<JobId, Job>): set<JobId> {
    set id | id in jobs && jobs[id].status.Terminal()
  }

  /** A live job has a frame, and a frame that ended belongs to a terminal job. */
  ghost predicate FramesMatchJobs(ids: set<JobId>, ended: set<JobId>, frames: map<JobId, Frame>) {
    && frames.Keys <= ids && ended <= ids
    && (forall id :: id in ids ==> id in ended || id in frames)
    && (forall id :: id in frames && frames[id].state.FrameEnded? ==> id in ended)
  }

  /** A parent registers at most one wait in its life, and reads it only once terminal. */
  ghost predicate OneWait(ended: set<JobId>, waits: map<JobId, seq<Wait>>, edges: map<JobId, Edge>) {
    forall p :: p in waits ==>
      && |waits[p]| == 1
      && waits[p][0].child in edges && edges[waits[p][0].child].parent == p
      && (waits[p][0].consumed || waits[p][0].acked || waits[p][0].state.WaitRetired? ==> p in ended)
  }

  ghost predicate EdgesMatchWaits(ids: set<JobId>, waits: map<JobId, seq<Wait>>, edges: map<JobId, Edge>) {
    && edges.Keys <= ids && waits.Keys <= ids
    && (forall c :: c in edges ==>
          edges[c].parent in waits && |waits[edges[c].parent]| == 1 && waits[edges[c].parent][0].child == c
          && edges[c].generation == 1)
  }

  ghost predicate FramesMatchWaits(frames: map<JobId, Frame>, waits: map<JobId, seq<Wait>>) {
    forall p :: p in frames ==>
      && frames[p].generation == (if p in waits then 1 else 0)
      && (frames[p].state.FrameWaiting? || frames[p].state.FrameSuspended? ==> p in waits)
  }

  ghost predicate DepthBounded(frames: map<JobId, Frame>, edges: map<JobId, Edge>) {
    && (forall c :: c in edges ==> 1 <= edges[c].depth <= MAX_ROOT_DEPTH)
    && (forall c, p :: c in edges && p in edges && edges[c].parent == p ==> edges[p].depth < edges[c].depth)
    && (forall id :: id in frames ==> frames[id].depth == if id in edges then edges[id].depth else 0)
  }

  ghost predicate Rooted(frames: map<JobId, Frame>, edges: map<JobId, Edge>, preparations: map<JobId, Identity>) {
    && (forall id :: id in frames ==>
          && frames[id].parent == (if id in edges then Some(edges[id].parent) else None)
          && frames[id].root in frames && frames[id].root !in edges
          && (id !in edges ==> frames[id].root == id)
          && frames[id].automatic == frames[frames[id].root].automatic
          && (frames[id].automatic ==> frames[id].root in preparations))
    && (forall id :: id in preparations ==> id !in edges && id in frames && frames[id].automatic)
  }

  predicate Awake(frames: map<JobId, Frame>, id: JobId) {
    id in frames && (frames[id].state.FrameQueued? || frames[id].state.FrameRunning?)
  }

  /** No live job sits directly below a terminal one, nor below a parent that is not asleep. */
  ghost predicate NoOrphans(ended: set<JobId>, frames: map<JobId, Frame>, edges: map<JobId, Edge>) {
    forall c :: c in edges && (edges[c].parent in ended || Awake(frames, edges[c].parent)) ==> c in ended
  }

  ghost predicate OnePreparation(ended: set<JobId>, preparations: map<JobId, Identity>) {
    forall a, b :: a in preparations && b in preparations && a !in ended && b !in ended ==> a == b
  }

  ghost predicate TreeInv(s: Store) {
    var ids, ended := s.jobs.Keys, EndedSet(s.jobs);
    && FramesMatchJobs(ids, ended, s.frames)
    && OneWait(ended, s.waits, s.edges) && EdgesMatchWaits(ids, s.waits, s.edges)
    && FramesMatchWaits(s.frames, s.waits)
    && DepthBounded(s.frames, s.edges) && Rooted(s.frames, s.edges, s.preparations)
    && NoOrphans(ended, s.frames, s.edges) && OnePreparation(ended, s.preparations)
  }

  // ----- slots and executions ------------------------------------------------------

  ghost predicate SlotsMatchJobs(s: Store) {
    && (forall id :: id in s.slots ==>
          && id in s.jobs && id in s.frames
          && s.slots[id].attempt <= s.jobs[id].attempt
          && (!s.jobs[id].status.Terminal() ==> s.slots[id].attempt == s.jobs[id].attempt)
          && !s.frames[id].state.FrameSuspended?)
    && (forall w :: w in s.workers ==> w.0 in s.jobs && w.1 <= s.jobs[w.0].attempt)
    && (forall id :: id in s.slots && s.slots[id].cleanupFailed ==> (id, s.slots[id].attempt) !in s.workers)
  }

  ghost predicate SlotsBounded(s: Store) {
    && |s.slots| <= EXECUTION_SLOT_CAPACITY
    && |AutomaticSlots(s)| <= 1
  }

  ghost predicate AdmissionBounded(s: Store) {
    |PublicLoad(s)| <= PUBLIC_ADMISSION_LIMIT
  }

  // ----- evidence ------------------------------------------------------------------

  ghost predicate Ascending(ids: seq<PacketId>) {
    forall i, j :: 0 <= i < j < |ids| ==> ids[i] < ids[j]
  }

  /** Every id names an outbox row of this job. */
  ghost predicate Owned(outbox: seq<Row>, ids: seq<PacketId>, id: JobId) {
    forall k :: 0 <= k < |ids| ==> 0 <= ids[k] < |outbox| && outbox[ids[k]].job == id
  }

  ghost predicate LogMatchesEvidence(job: Job) {
    && |job.observations| == |job.evidence|
    && (forall k :: 0 <= k < |job.evidence| ==>
         job.observations[k].id == job.evidence[k] && !job.observations[k].body.Omitted?)
    && Ascending(job.evidence)
    && FindingsObserved(job.findings, job.evidence)
  }

  /** A child's entry carries its own position, is filed under its wait, and cites only the
      child's packets. */
  ghost predicate ChildEntry(outbox: seq<Row>, edges: map<JobId, Edge>, packets: map<ChildKey, PacketId>,
                             id: JobId, k: int, o: Observation) {
    o.body.ChildResult? ==>
      && o.body.ordinal == k + 1
      && o.body.child in edges && edges[o.body.child].parent == id
      && var key := ChildKey(id, edges[o.body.child].generation, o.body.child);
      && key in packets && packets[key] == o.id
      && Owned(outbox, o.body.refs, o.body.child)
  }

  ghost predicate JobLog(outbox: seq<Row>, edges: map<JobId, Edge>, packets: map<ChildKey, PacketId>, id: JobId,
                         job: Job) {
    && LogMatchesEvidence(job)
    && Owned(outbox, job.evidence, id)
    && (job.result.Some? ==> Owned(outbox, [job.result.value], id))
    && forall k :: 0 <= k < |job.observations| ==> ChildEntry(outbox, edges, packets, id, k, job.observations[k])
  }

  /** A filed child result is an entry of its parent's log. */
  ghost predicate PacketLogged(jobs: map<JobId, Job>, edges: map<JobId, Edge>, key: ChildKey, packet: PacketId) {
    && key.parent in jobs && key.child in edges
    && edges[key.child].parent == key.parent && edges[key.child].generation == key.generation
    && exists k :: 0 <= k < |jobs[key.parent].observations|
                   && jobs[key.parent].observations[k].id == packet
                   && jobs[key.parent].observations[k].body.ChildResult?
                   && jobs[key.parent].observations[k].body.child == key.child
  }

  ghost predicate OutcomeOwned(outbox: seq<Row>, id: JobId, o: Outcome) {
    Owned(outbox, o.evidence, id) && (o.result.Some? ==> Owned(outbox, [o.result.value], id))
  }

  /** Every row belongs to a job, and names only earlier rows as its parents. */
  ghost predicate OutboxOrdered(ids: set<JobId>, outbox: seq<Row>) {
    forall k :: 0 <= k < |outbox| ==> outbox[k].job in ids && forall p :: p in outbox[k].parents ==> 0 <= p < k
  }

  ghost predicate LogInv(s: Store) {
    && (forall id :: id in s.jobs ==> JobLog(s.outbox, s.edges, s.childPackets, id, s.jobs[id]))
    && (forall key :: key in s.childPackets ==> PacketLogged(s.jobs, s.edges, key, s.childPackets[key]))
    && (forall id :: id in s.frames && s.frames[id].state.FrameEnded? ==>
         OutcomeOwned(s.outbox, id, s.frames[id].state.outcome))
    && OutboxOrdered(s.jobs.Keys, s.outbox)
  }

  // ----- checkpoints, cache, substance ---------------------------------------------

  ghost predicate FramesFaithful(cfg: Config, frames: seq<Observation>, raw: seq<Observation>) {
    forall i :: 0 <= i < |frames| ==>
      Position(raw, frames[i].id) < |raw| && FaithfulFrame(cfg, raw[Position(raw, frames[i].id)], frames[i])
  }

  ghost predicate EachOnce(frames: seq<Observation>) {
    forall i, j :: 0 <= i < j < |frames| ==> frames[i].id != frames[j].id
  }

  ghost predicate CheckpointOk(cfg: Config, c: Checkpoint, job: Job) {
    && c.scope == job.scope && c.attempt <= job.attempt && FramesFaithful(cfg, c.frames, job.observations)
    && EachOnce(c.frames)
  }

  ghost predicate CheckpointInv(cfg: Config, s: Store) {
    forall id :: id in s.checkpoints ==> id in s.jobs && CheckpointOk(cfg, s.checkpoints[id], s.jobs[id])
  }

  ghost predicate IndexMatchesJobs(jobs: map<JobId, Job>, index: map<Identity, JobId>) {
    && (forall i :: i in index ==> index[i] in jobs && jobs[index[i]].identity == Some(i))
    && (forall id :: id in jobs && !jobs[id].status.Terminal() && jobs[id].identity.Some? ==>
          jobs[id].identity.value in index && index[jobs[id].identity.value] == id)
  }

  ghost predicate CacheInv(s: Store) {
    IndexMatchesJobs(s.jobs, s.index) && |AnsweredSet(s)| <= INDEX_CAPACITY
  }

  ghost predicate SuccessInv(s: Store) {
    forall id :: id in s.jobs && (s.jobs[id].status.Completed? || s.jobs[id].status.Partial?) ==>
      !Hollow(s.jobs[id].answer, s.jobs[id].findings, s.jobs[id].evidence)
  }

  ghost predicate Inv(cfg: Config, s: Store) {
    && TreeInv(s) && SlotsMatchJobs(s) && SlotsBounded(s) && AdmissionBounded(s)
    && LogInv(s) && CheckpointInv(cfg, s) && CacheInv(s) && SuccessInv(s)
  }

  // ----- what a transaction keeps --------------------------------------------------

  /** One job between two states: attempts only grow, an attempt that left Running stays
      out of it, a terminal record is final and the log is append-only. */
  ghost predicate JobEvolves(a: Job, b: Job) {
    && a.attempt <= b.attempt
    && (a.status.Terminal() ==> b == a)
    && (b.status.Running? && a.attempt == b.attempt ==> a.status.Running?)
    && a.evidence <= b.evidence && a.observations <= b.observations
    && a.scope == b.scope && a.identity == b.identity && a.hints == b.hints && a.deadline == b.deadline
  }

  ghost predicate Evolves(s: Store, t: Store) {
    && (forall id :: id in s.jobs ==> id in t.jobs && JobEvolves(s.jobs[id], t.jobs[id]))
    && s.outbox <= t.outbox
    && (forall c :: c in s.edges ==> c in t.edges && t.edges[c] == s.edges[c])
    && (forall key :: key in s.childPackets ==> key in t.childPackets && t.childPackets[key] == s.childPackets[key])
  }

  lemma EvolvesTransitive(s: Store, t: Store, u: Store)
    requires Evolves(s, t) && Evolves(t, u)
    ensures Evolves(s, u)
  {
    forall id | id in s.jobs
      ensures id in u.jobs && JobEvolves(s.jobs[id], u.jobs[id])
    {
      assert JobEvolves(s.jobs[id], t.jobs[id]) && JobEvolves(t.jobs[id], u.jobs[id]);
    }
  }
}
