/** Each broker transaction as a function from the store before it to the store after it.
    A transaction that raises, or that its guard refuses, leaves the store as it was. */
module BrokerSteps {
  import opened Prelude
  import opened BrokerModel

  // ----- shared pieces -------------------------------------------------------------

  /** The fence every worker write passes: the exact attempt, still running, under a lease
      or under a slot whose recorded owner is alive. */
  predicate IsRunning(s: Store, id: JobId, attempt: int, now: Time, alive: set<Process>) {
    && id in s.jobs && s.jobs[id].attempt == attempt && s.jobs[id].status.Running?
    && (now < s.jobs[id].lease
        || (id in s.slots && s.slots[id].attempt == attempt && OwnerAlive(s.slots[id].owner, alive)))
  }

  function NewJob(scope: Scope, hints: seq<PacketId>, deadline: Time, identity: Option<Identity>, now: Time): Job {
    Job(scope, Queued, 0, "", [], [], [], None, hints, Some(deadline), identity, NoReason, now, 0.0, 0.0)
  }

  function RootFrame(id: JobId, deadline: Time, automatic: bool): Frame {
    Frame(id, None, 0, 0, deadline, 0, automatic, FrameQueued)
  }

  /** FrameStore.record_terminal: a frame ends once, and after its deadline only as expired
      or cancelled. */
  function EndFrame(frames: map<JobId, Frame>, id: JobId, outcome: Outcome, now: Time): map<JobId, Frame> {
    if id in frames && !frames[id].state.FrameEnded?
       && (now < frames[id].deadline || outcome.ending == Expired || outcome.ending == EndedAs(Cancelled))
    then frames[id := frames[id].(state := FrameEnded(outcome))]
    else frames
  }

  function CancelledJob(job: Job, reason: Reason, now: Time): Job {
    job.(attempt := job.attempt + 1, status := Cancelled, reason := reason, lease := 0.0, updated := now)
  }

  /** Fence every live job under a parent that ends: one cancelled generation each. */
  ghost function CancelJobs(jobs: map<JobId, Job>, frames: map<JobId, Frame>, doomed: set<JobId>,
                            now: Time): map<JobId, Job> {
    map id | id in jobs ::
      if id in doomed && id in frames && !jobs[id].status.Terminal()
      then CancelledJob(jobs[id], Other("parent_terminal"), now) else jobs[id]
  }

  ghost function CancelFrames(frames: map<JobId, Frame>, jobs: set<JobId>, doomed: set<JobId>): map<JobId, Frame> {
    map id | id in frames ::
      if id in doomed && id in jobs && !frames[id].state.FrameEnded?
      then frames[id].(state := FrameEnded(Outcome(EndedAs(Cancelled), [], None))) else frames[id]
  }

  ghost function CancelDescendants(s: Store, parent: JobId, now: Time): Store {
    var doomed := Descendants(s.edges, parent);
    s.(jobs := CancelJobs(s.jobs, s.frames, doomed, now), frames := CancelFrames(s.frames, s.jobs.Keys, doomed))
  }

  /** Replace a job's record by an ended one and end everything below it. */
  ghost function EndTree(s: Store, id: JobId, ended: Job, outcome: Outcome, now: Time): Store {
    var s1 := s.(jobs := s.jobs[id := ended]);
    if id in s.frames
    then
      var s2 := CancelDescendants(s1, id, now);
      s2.(frames := EndFrame(s2.frames, id, outcome, now))
    else s1
  }

  /** Index entries that still serve an answer, newest first: a strict order on them. */
  predicate Newer(s: Store, a: Identity, b: Identity)
    requires a in s.index && b in s.index && s.index[a] in s.jobs && s.index[b] in s.jobs
  {
    var x, y := s.index[a], s.index[b];
    s.jobs[x].updated > s.jobs[y].updated || (s.jobs[x].updated == s.jobs[y].updated && x > y)
  }

  predicate Answered(s: Store, i: Identity) {
    i in s.index && s.index[i] in s.jobs && CacheEligible(s.jobs[s.index[i]])
  }

  function AnsweredSet(s: Store): set<Identity> {
    set i | i in s.index && Answered(s, i)
  }

  function NewerAnswers(s: Store, i: Identity): set<Identity>
    requires Answered(s, i)
  {
    set k | k in s.index && Answered(s, k) && Newer(s, k, i)
  }

  /** Keep the fifty newest answers; entries without an answer are never dropped. */
  function TrimIndex(s: Store): Store {
    s.(index := map i | i in s.index && (Answered(s, i) ==> |NewerAnswers(s, i)| < INDEX_CAPACITY) :: s.index[i])
  }

  // ----- waits ---------------------------------------------------------------------

  predicate ChildEnded(s: Store, w: Wait) {
    w.child in s.frames && s.frames[w.child].state.FrameEnded?
  }

  predicate OutcomeReady(s: Store, p: JobId, g: int) {
    HasWait(s, p, g)
    && !WaitAt(s, p, g).state.WaitRetired?
    && (WaitAt(s, p, g).consumed || ChildEnded(s, WaitAt(s, p, g)))
  }

  /** FrameStore.reconcile: make a complete wait's wake durable. */
  function MarkReady(s: Store, p: JobId, g: int): Store {
    if HasWait(s, p, g) && !WaitAt(s, p, g).state.WaitRetired? && !WaitAt(s, p, g).consumed
       && ChildEnded(s, WaitAt(s, p, g))
    then PutWait(s, p, g, WaitAt(s, p, g).(state := WaitReady))
    else s
  }

  /** FrameStore.eligible: a queued child may start only under a suspended parent whose
      slot was proved released. */
  predicate Eligible(s: Store, id: JobId, now: Time) {
    && id in s.frames && s.frames[id].parent.Some?
    && var p := s.frames[id].parent.value;
    && WaitCount(s, p) > 0
    && p in s.frames && s.frames[p].state.FrameSuspended?
    && var w := WaitAt(s, p, WaitCount(s, p));
    && w.state.WaitOpen? && w.released
    && now < s.frames[id].deadline && s.frames[id].state.FrameQueued?
  }

  // ----- admission -----------------------------------------------------------------

  datatype Snapshot = Snapshot(job: JobId, recordUnchanged: bool, stillFresh: bool)

  /** A submission with every answer the broker gets from code outside it. */
  datatype Request = Request(
    id: JobId, scope: Scope, hints: seq<PacketId>, identity: Option<Identity>,
    authorized: bool, snapshot: Option<Snapshot>, dispatching: bool, skillKnown: bool,
    hintsResolve: bool, fitsStorage: bool)

  datatype Reply = Refused | Existing(job: JobId) | Admitted(job: JobId)

  function PublicLoad(s: Store): set<JobId> {
    set id | id in s.jobs && !IsPrivate(s, id) && (!s.jobs[id].status.Terminal() || id in s.slots)
  }

  function Min(a: int, b: int): int { if a <= b then a else b }

  function Indexed(s: Store, i: Option<Identity>): Option<JobId> {
    if i.Some? && i.value in s.index && s.index[i.value] in s.jobs then Some(s.index[i.value]) else None
  }

  /** Why an identity's current generation answers the submission itself, if it does. */
  function CacheReply(s: Store, r: Request, prior: JobId): Option<Reply>
    requires prior in s.jobs
  {
    var previous := s.jobs[prior];
    if !r.authorized then Some(Refused)
    else if !previous.status.Terminal() || prior in s.slots then Some(Existing(prior))
    else if !CacheEligible(previous) then Some(Existing(prior))
    else if r.snapshot.None? || r.snapshot.value.job != prior || !r.snapshot.value.recordUnchanged then Some(Refused)
    else if r.snapshot.value.stillFresh then Some(Existing(prior))
    else None
  }

  function RefreshedHints(s: Store, r: Request): seq<PacketId> {
    var prior := Indexed(s, r.identity);
    if prior.Some? then Dedup(s.jobs[prior.value].hints + Dedup(r.hints)) else Dedup(r.hints)
  }

  function Submit(cfg: Config, s: Store, r: Request, now: Time): (Store, Reply) {
    var prior := Indexed(s, r.identity);
    var served := if prior.Some? then CacheReply(s, r, prior.value) else None;
    if served.Some? then (s, served.value)
    else if !r.dispatching || !r.skillKnown || !r.hintsResolve then (s, Refused)
    else if |PublicLoad(s)| >= Min(PUBLIC_ADMISSION_LIMIT, cfg.hardLimit) || !r.fitsStorage then (s, Refused)
    else
      (s.(jobs := s.jobs[r.id := NewJob(r.scope, RefreshedHints(s, r), now + 300.0, r.identity, now)],
          frames := s.frames[r.id := RootFrame(r.id, now + 300.0, false)],
          index := if r.identity.Some? then s.index[r.identity.value := r.id] else s.index),
       Admitted(r.id))
  }

  predicate StalePreparation(s: Store, id: JobId, work: Identity) {
    && id in s.preparations && s.preparations[id] != work
    && id in s.frames && s.frames[id].automatic && Live(s, id)
  }

  /** End superseded preparations one by one, in the order the query listed them. */
  ghost function CancelAll(s: Store, order: seq<JobId>, reason: Reason, now: Time): Store
    decreases |order|
  {
    if order == [] then s
    else
      var id := order[0];
      CancelAll(if Live(s, id)
        then EndTree(s, id, CancelledJob(s.jobs[id], reason, now), Outcome(EndedAs(Cancelled), [], None), now) else s,
                order[1..], reason, now)
  }

  /** Admit one automatic preparation. A storage refusal comes after the superseded ones
      were cancelled, and those cancellations stay committed. */
  ghost function Prepare(s: Store, id: JobId, scope: Scope, work: Identity, deadline: Time, now: Time,
                         permitted: bool, fitsStorage: bool, stale: seq<JobId>): (Store, Reply) {
    if deadline <= now || !permitted then (s, Refused)
    else if exists j :: j in s.preparations && s.preparations[j] == work then
      (s, Existing(var j :| j in s.preparations && s.preparations[j] == work; j))
    else
      var s1 := CancelAll(s, stale, Other("preparation_source_changed"), now);
      if !fitsStorage then (s1, Refused)
      else (s1.(jobs := s1.jobs[id := NewJob(scope, [], deadline, None, now)],
                frames := s1.frames[id := RootFrame(id, deadline, true)],
                preparations := s1.preparations[id := work]),
            Admitted(id))
  }

  // ----- claiming ------------------------------------------------------------------

  /** What the dispatcher learns outside the transaction. */
  datatype Dispatch = Dispatch(
    now: Time, alive: set<Process>, owner: Option<Process>, preflight: Option<set<JobId>>,
    allowed: set<JobId>, executable: set<JobId>)

  /** A slot whose lease ran out, not marked failed, and whose owner is not alive. */
  predicate Reclaimable(slot: Slot, d: Dispatch) {
    slot.lease <= d.now && !slot.cleanupFailed && !OwnerAlive(slot.owner, d.alive)
  }

  function Reclaim(s: Store, d: Dispatch): Store {
    s.(slots := map id | id in s.slots && !Reclaimable(s.slots[id], d) :: s.slots[id])
  }

  function AutomaticSlots(s: Store): set<JobId> {
    set id | id in s.slots && Automatic(s, id)
  }

  /** The dispatch order: public before automatic, then oldest update, then id. */
  predicate Before(s: Store, a: JobId, b: JobId)
    requires a in s.jobs && b in s.jobs
  {
    var x, y := Automatic(s, a), Automatic(s, b);
    || (!x && y)
    || (x == y && (s.jobs[a].updated < s.jobs[b].updated || (s.jobs[a].updated == s.jobs[b].updated && a < b)))
  }

  predicate ReadyToResume(s: Store, id: JobId) {
    && id in s.frames && s.frames[id].state.FrameSuspended?
    && WaitCount(s, id) > 0 && OutcomeReady(s, id, WaitCount(s, id))
  }

  /** The frame's own gate: not waiting, a suspended parent only once its wake is ready,
      a queued child only when eligible, nothing that ended. */
  predicate FrameGate(s: Store, id: JobId, now: Time) {
    id in s.frames ==>
      match s.frames[id].state
      case FrameWaiting => false
      case FrameSuspended => ReadyToResume(s, id)
      case FrameQueued => s.frames[id].parent.Some? ==> Eligible(s, id, now)
      case FrameRunning => true
      case FrameEnded(_) => false
  }

  /** Policy, preflight and occupancy: everything a job must pass before its budget is read. */
  predicate DispatchGate(s: Store, id: JobId, d: Dispatch) {
    && (id in s.frames ==>
          && (Automatic(s, id) ==> s.frames[id].root in s.preparations && |AutomaticSlots(s)| < 1)
          && id in d.allowed)
    && (d.preflight.Some? ==> id in d.preflight.value)
    && id in d.executable
    && id !in s.slots
  }

  predicate Exhausted(s: Store, id: JobId, now: Time)
    requires id in s.jobs
  {
    || (s.jobs[id].deadline.Some? && s.jobs[id].deadline.value <= now)
    || (if id in s.frames then s.frames[id].failures >= RETRY_LIMIT else s.jobs[id].attempt >= RETRY_LIMIT)
  }

  /** A suspended parent whose children finished goes back to the queue, durably. */
  function Requeue(s: Store, id: JobId, now: Time): Store
    requires id in s.jobs
  {
    if ReadyToResume(s, id)
    then
      var s1 := MarkReady(s, id, WaitCount(s, id));
      s1.(jobs := s1.jobs[id := s1.jobs[id].(status := QueuedAfterEviction, available := now, updated := now)])
    else s
  }

  function RetiredJob(job: Job, now: Time): Job {
    job.(status := if job.findings != [] then Partial else Failed,
         reason := AttemptOrDeadlineExhausted, lease := 0.0, updated := now)
  }

  function Retire(s: Store, id: JobId, now: Time): Store
    requires id in s.jobs
  {
    TrimIndex(s.(jobs := s.jobs[id := RetiredJob(s.jobs[id], now)]))
  }

  function Start(cfg: Config, s: Store, id: JobId, d: Dispatch): Store
    requires id in s.jobs
  {
    var job := s.jobs[id];
    s.(jobs := s.jobs[id := job.(attempt := job.attempt + 1, status := Running,
                                 lease := d.now + cfg.leaseSeconds, updated := d.now)],
       frames := if id in s.frames then s.frames[id := s.frames[id].(state := FrameRunning)] else s.frames,
       slots := s.slots[id := Slot(job.attempt + 1, d.now + cfg.leaseSeconds, d.owner, false)],
       workers := s.workers + {(id, job.attempt + 1)})
  }

  /** All gates at one instant. */
  predicate Passes(s: Store, id: JobId, d: Dispatch)
    requires id in s.jobs
  {
    && Live(s, id) && FrameGate(s, id, d.now) && DispatchGate(s, id, d) && !Exhausted(s, id, d.now)
    && s.jobs[id].available <= d.now && |s.slots| < EXECUTION_SLOT_CAPACITY
  }

  /** One row of the claim scan, and whether it was started. */
  function ScanRow(cfg: Config, s: Store, id: JobId, d: Dispatch): (Store, bool)
    requires id in s.jobs
  {
    if !Live(s, id) || !FrameGate(s, id, d.now) then (s, false)
    else
      var s1 := Requeue(s, id, d.now);
      if !DispatchGate(s, id, d) then (s1, false)
      else if Exhausted(s, id, d.now) then (Retire(s1, id, d.now), false)
      else if s.jobs[id].available > d.now || |s.slots| >= EXECUTION_SLOT_CAPACITY then (s1, false)
      else (Start(cfg, s1, id, d), true)
  }

  /** Scan the rows in order until one starts. */
  function Scan(cfg: Config, s: Store, rows: seq<JobId>, d: Dispatch): (Store, Option<JobId>)
    decreases |rows|
  {
    if rows == [] then (s, None)
    else if rows[0] !in s.jobs then Scan(cfg, s, rows[1..], d)
    else
      var (s1, started) := ScanRow(cfg, s, rows[0], d);
      if started then (s1, Some(rows[0])) else Scan(cfg, s1, rows[1..], d)
  }

  /** `rows` is the job table in dispatch order. */
  ghost predicate DispatchOrder(s: Store, rows: seq<JobId>) {
    && (forall i :: 0 <= i < |rows| ==> rows[i] in s.jobs)
    && (forall id :: id in s.jobs ==> id in rows)
    && (forall i, j :: 0 <= i < j < |rows| ==> Before(s, rows[i], rows[j]))
  }

  function Claim(cfg: Config, s: Store, rows: seq<JobId>, d: Dispatch): (Store, Option<JobId>) {
    Scan(cfg, Reclaim(s, d), rows, d)
  }

  // ----- a running worker ----------------------------------------------------------

  function Heartbeat(cfg: Config, s: Store, id: JobId, attempt: int, now: Time): Store {
    var lease := now + cfg.leaseSeconds;
    s.(slots := if id in s.slots && s.slots[id].attempt == attempt
                then s.slots[id := s.slots[id].(lease := lease)] else s.slots,
       jobs := if id in s.jobs && s.jobs[id].attempt == attempt && s.jobs[id].status.Running?
               then s.jobs[id := s.jobs[id].(lease := lease)] else s.jobs)
  }

  /** Append one masked tool payload to the evidence log; `fits` is the storage-cap answer. */
  function Observe(cfg: Config, s: Store, id: JobId, attempt: int, text: string, now: Time,
                   alive: set<Process>, fits: bool): (Store, Option<PacketId>) {
    if !IsRunning(s, id, attempt, now, alive) || !fits then (s, None)
    else
      var packet := |s.outbox|;
      var job := s.jobs[id];
      (s.(outbox := s.outbox + [Row(id, [])],
          jobs := s.jobs[id := job.(evidence := job.evidence + [packet],
                                    observations := job.observations + [Observation(packet, Tool(text), None)],
                                    updated := now, lease := now + cfg.leaseSeconds)]),
       Some(packet))
  }

  function Position(log: seq<Observation>, id: PacketId): (k: nat)
    ensures k <= |log|
    ensures k < |log| ==> log[k].id == id
    ensures forall i :: 0 <= i < k ==> log[i].id != id
    ensures forall i :: 0 <= i < |log| && log[i].id == id ==> k <= i
  {
    if log == [] then 0 else if log[0].id == id then 0 else 1 + Position(log[1..], id)
  }

  /** A checkpoint frame says what the log says, or marks a payload over the frame cap. */
  predicate FaithfulFrame(cfg: Config, raw: Observation, frame: Observation) {
    && frame.id == raw.id
    && (frame.body == raw.body
        || (frame.body == Omitted && cfg.frameBytes(raw.(call := frame.call)) > CHECKPOINT_MAX_FRAME_BYTES))
  }

  predicate CheckpointAccepted(cfg: Config, job: Job, frames: seq<Observation>) {
    && |frames| <= CHECKPOINT_MAX_OBSERVATIONS
    && (forall i :: 0 <= i < |frames| ==>
          && frames[i].id in job.evidence
          && Position(job.observations, frames[i].id) < |job.observations|
          && FaithfulFrame(cfg, job.observations[Position(job.observations, frames[i].id)], frames[i])
          && cfg.frameBytes(frames[i]) <= CHECKPOINT_MAX_FRAME_BYTES)
    && (forall i, j :: 0 <= i < j < |frames| ==>
          Position(job.observations, frames[i].id) < Position(job.observations, frames[j].id))
    && cfg.checkpointBytes(frames) <= CHECKPOINT_MAX_BYTES
  }

  function WriteCheckpoint(cfg: Config, s: Store, id: JobId, attempt: int, frames: seq<Observation>,
                           scope: Option<Scope>, now: Time, alive: set<Process>, fits: bool): (Store, bool) {
    if !IsRunning(s, id, attempt, now, alive) then (s, false)
    else if (scope.Some? && scope.value != s.jobs[id].scope) || !CheckpointAccepted(cfg, s.jobs[id], frames) || !fits
    then (s, false)
    else (s.(checkpoints := s.checkpoints[id := Checkpoint(s.jobs[id].scope, attempt, frames)],
             jobs := s.jobs[id := s.jobs[id].(lease := now + cfg.leaseSeconds, updated := now)]),
          true)
  }

  function SavedFrame(frames: seq<Observation>, o: Observation): Observation {
    var k := Position(frames, o.id);
    if k < |frames| then frames[k] else o
  }

  /** What a reader is shown: the raw log with checkpoint frames laid over it. */
  function PublicObservations(s: Store, id: JobId): seq<Observation>
    requires id in s.jobs
  {
    var raw := s.jobs[id].observations;
    if id in s.checkpoints
    then seq(|raw|, (k: int) requires 0 <= k < |raw| => SavedFrame(s.checkpoints[id].frames, raw[k]))
    else raw
  }

  /** The frame a waiting parent has, or is given when it has none yet. */
  function ParentFrame(s: Store, id: JobId): Frame
    requires id in s.jobs
  {
    if id in s.frames then s.frames[id]
    else RootFrame(id, if s.jobs[id].deadline.Some? then s.jobs[id].deadline.value else 0.0, false)
  }

  /** What a private wait asks of its parent; `room` is the turn and credit budget's answer. */
  predicate MayWait(s: Store, id: JobId, now: Time, room: bool)
    requires id in s.jobs
  {
    var job, parent, last := s.jobs[id], ParentFrame(s, id), WaitCount(s, id);
    && job.deadline.Some? && now < job.deadline.value && room
    && !parent.state.FrameEnded? && parent.depth < MAX_ROOT_DEPTH && job.deadline.value <= parent.deadline
    && (last > 0 ==> WaitAt(s, id, last).state.WaitReady? && WaitAt(s, id, last).consumed)
  }

  /** One queued child in a new generation, and its parent put to sleep. */
  function RegisterChild(s: Store, id: JobId, child: JobId, now: Time): Store
    requires id in s.jobs && s.jobs[id].deadline.Some?
  {
    var job, parent, g := s.jobs[id], ParentFrame(s, id), WaitCount(s, id) + 1;
    s.(jobs := s.jobs[child := NewJob(job.scope, [], job.deadline.value, None, now)]
                     [id := job.(status := Yielding, updated := now, lease := 0.0, available := now)],
       frames := s.frames[child := Frame(parent.root, Some(id), 0, parent.depth + 1, job.deadline.value, 0,
                                         if parent.root in s.frames then s.frames[parent.root].automatic
                                           else parent.automatic,
                                         FrameQueued)]
                         [id := parent.(generation := g, state := FrameWaiting)],
       edges := s.edges[child := Edge(id, g, parent.depth + 1)],
       waits := s.waits[id := (if id in s.waits then s.waits[id]
         else []) + [Wait(child, WaitOpen, false, false, false)]])
  }

  /** Register one child and put the parent to sleep, if the parent may still wait. */
  function PrivateWait(s: Store, id: JobId, attempt: int, child: JobId, now: Time, alive: set<Process>,
                       room: bool): (Store, bool) {
    if !IsRunning(s, id, attempt, now, alive) || !MayWait(s, id, now, room) then (s, false)
    else (RegisterChild(s, id, child, now), true)
  }

  // ----- finishing -----------------------------------------------------------------

  /** A worker's final report; fields it left out are None. */
  datatype Report = Report(
    status: Status, reason: Reason, answer: Option<string>, findings: Option<seq<Finding>>,
    consumed: Option<seq<JobId>>)

  /** Turn exhaustion is terminal however the producer spelled it. */
  function Normalised(r: Report): Report {
    if (r.status.Yielding? && r.reason.StepBudget?) || (r.status.Partial? && r.reason.StepBudgetExhausted?)
    then r.(status := Partial, reason := StepBudgetExhausted)
    else r
  }

  predicate CooperativeYield(r: Report) {
    r.status.Yielding? && (r.reason.SliceComplete? || r.reason.PrivateWaitProposed? || r.reason.PreemptionRequested?
                           || r.reason.ForegroundPreemption? || r.reason.SessionEvicted?)
  }

  predicate CountsAsFailure(s: Store, id: JobId, r: Report) {
    id in s.frames && r.status.Yielding? && !CooperativeYield(r)
  }

  predicate FinishForced(s: Store, id: JobId, r: Report, now: Time)
    requires id in s.jobs
  {
    || (s.jobs[id].deadline.Some? && s.jobs[id].deadline.value <= now)
    || (id !in s.frames && !r.status.Terminal() && s.jobs[id].attempt >= RETRY_LIMIT)
    || (CountsAsFailure(s, id, r) && s.frames[id].failures + 1 >= RETRY_LIMIT)
  }

  /** The report after the deadline and attempt budget had their say. */
  function Forced(s: Store, id: JobId, r: Report, now: Time): Report
    requires id in s.jobs
  {
    if FinishForced(s, id, r, now)
    then r.(status := if s.jobs[id].answer != "" || s.jobs[id].findings != [] || s.jobs[id].evidence != []
                      then Partial else Failed,
            reason := AttemptOrDeadlineExhausted)
    else r
  }

  function Reported<T>(field: Option<T>, kept: T): T {
    if field.Some? then field.value else kept
  }

  predicate Hollow(answer: string, findings: seq<Finding>, evidence: seq<PacketId>) {
    Blank(answer) && findings == [] && evidence == []
  }

  /** The status committed for a report: success without any substance is a failure. */
  function FinalStatus(job: Job, r: Report): Status {
    if (r.status.Completed? || r.status.Partial?)
       && Hollow(Reported(r.answer, job.answer), Reported(r.findings, job.findings), job.evidence)
    then Failed else r.status
  }

  function EndingOf(status: Status, reason: Reason): Ending {
    if reason.DeadlineExhausted? || reason.AttemptOrDeadlineExhausted? then Expired else EndedAs(status)
  }

  function RetryDelay(cfg: Config, job: Job, reason: Reason): Time {
    if reason.SliceComplete? || reason.PrivateWaitProposed? then 0.0
    else if cfg.retrySeconds.Some? then cfg.retrySeconds.value
    else if job.attempt == 1 then 5.0 else 15.0
  }

  /** The child whose stored outcome the worker was shown, if there is one. */
  function ShownChild(s: Store, id: JobId): Option<JobId> {
    if id in s.frames && WaitCount(s, id) > 0 && OutcomeReady(s, id, WaitCount(s, id))
       && !WaitAt(s, id, WaitCount(s, id)).consumed
    then Some(WaitAt(s, id, WaitCount(s, id)).child) else None
  }

  predicate AckNamesShownChild(s: Store, id: JobId, consumed: seq<JobId>) {
    ShownChild(s, id).Some? && consumed != [] && (forall c :: c in consumed ==> c == ShownChild(s, id).value)
  }

  predicate FindingsObserved(findings: seq<Finding>, evidence: seq<PacketId>) {
    forall f :: f in findings ==> forall p :: p in f.evidence ==> p in evidence
  }

  /** The job record a finish commits, apart from its result packet. */
  function FinishedJob(cfg: Config, job: Job, r: Report, status: Status, late: Time): Job {
    job.(status := status, answer := Reported(r.answer, job.answer), findings := Reported(r.findings, job.findings),
         reason := if status.Terminal() then r.reason else job.reason,
         updated := late, lease := 0.0, available := late + RetryDelay(cfg, job, r.reason))
  }

  /** Whether the finish transaction commits: a known status, an exact acknowledgement,
      findings that cite observed evidence, and a result packet that fits. */
  predicate FinishCommits(s: Store, id: JobId, r: Report, now: Time, fits: bool)
    requires id in s.jobs
  {
    var job := s.jobs[id];
    var f := Forced(s, id, r, now);
    var status := FinalStatus(job, f);
    && (r.status.Terminal() || r.status.Yielding? || r.status.QueuedAfterEviction?)
    && (r.consumed.Some? ==> AckNamesShownChild(s, id, r.consumed.value)
                             && (status.Terminal() ==> |r.consumed.value| == 1))
    && FindingsObserved(Reported(r.findings, job.findings), job.evidence)
    && (status.Terminal() ==> fits)
  }

  /** Bookkeeping before the job row is written: the failure count and the durable wake. */
  function FinishPrologue(s: Store, id: JobId, r: Report): Store {
    var s1 := CountFailure(s, id, r);
    if id in s1.frames then MarkReady(s1, id, WaitCount(s1, id)) else s1
  }

  function CountFailure(s: Store, id: JobId, r: Report): Store {
    if CountsAsFailure(s, id, r)
    then s.(frames := s.frames[id := s.frames[id].(failures := s.frames[id].failures + 1)]) else s
  }

  function Acknowledge(s: Store, id: JobId): Store {
    if WaitCount(s, id) > 0
    then PutWait(s, id, WaitCount(s, id), WaitAt(s, id, WaitCount(s, id)).(acked := true)) else s
  }

  /** Write the job row for a report whose final status is known. A terminal report that
      acknowledged its child leaves its own frame to be ended once the wake is consumed. */
  ghost function CommitReport(cfg: Config, s: Store, id: JobId, f: Report, status: Status, acknowledged: bool,
                              late: Time): Store
    requires id in s.jobs
  {
    var job := FinishedJob(cfg, s.jobs[id], f, status, late);
    if !status.Terminal() then TrimIndex(s.(jobs := s.jobs[id := job]))
    else
      var ended := job.(result := Some(|s.outbox|));
      var s1 := s.(outbox := s.outbox + [Row(id, [])]);
      if acknowledged
      then TrimIndex(Acknowledge(s1.(jobs := s1.jobs[id := ended]), id))
      else TrimIndex(EndTree(s1, id, ended, Outcome(EndingOf(status, f.reason), ended.evidence, ended.result), late))
  }

  /** Commit one attempt's report. `now` is the clock at the deadline check and `late` the
      later reading used for the rows. */
  ghost function Finish(cfg: Config, s: Store, id: JobId, attempt: int, report: Report, now: Time, late: Time,
                        alive: set<Process>, fits: bool): (Store, bool) {
    var r := Normalised(report);
    if !IsRunning(s, id, attempt, now, alive) || !FinishCommits(s, id, r, now, fits) then (s, false)
    else
      var f := Forced(s, id, r, now);
      (CommitReport(cfg, FinishPrologue(s, id, r), id, f, FinalStatus(s.jobs[id], f), r.consumed.Some?, late), true)
  }

  // ----- ending from outside -------------------------------------------------------

  ghost function Cancel(s: Store, id: JobId, scope: Scope, now: Time): (Store, bool) {
    if IsPrivate(s, id) || !Live(s, id) || s.jobs[id].scope != scope then (s, false)
    else (TrimIndex(EndTree(s, id, CancelledJob(s.jobs[id], s.jobs[id].reason, now),
      Outcome(EndedAs(Cancelled), [], None), now)), true)
  }

  ghost function CancelPreparation(s: Store, id: JobId, scope: Scope, now: Time): (Store, bool) {
    if id !in s.preparations || !Live(s, id) || s.jobs[id].scope != scope then (s, false)
    else (EndTree(s, id, CancelledJob(s.jobs[id], Other("operator_cancelled"), now),
      Outcome(EndedAs(Cancelled), [], None), now), true)
  }

  predicate Due(job: Job, now: Time) {
    !job.status.Terminal() && job.deadline.Some? && job.deadline.value <= now
  }

  function ExpiredJob(job: Job, now: Time): Job {
    job.(attempt := job.attempt + 1,
         status := if job.findings != [] || job.evidence != [] then Partial else Failed,
         reason := DeadlineExhausted, lease := 0.0, updated := now)
  }

  /** One expired row. `fetched` is the record read before the loop: an ancestor's cascade
      may meanwhile have cancelled the same job, and is overwritten. */
  ghost function ExpireOne(s: Store, id: JobId, fetched: Job, now: Time): Store {
    TrimIndex(EndTree(s, id, ExpiredJob(fetched, now), Outcome(Expired, fetched.evidence, None), now))
  }

  ghost function ExpireAll(s: Store, rows: seq<(JobId, Job)>, now: Time): Store
    decreases |rows|
  {
    if rows == [] then s else ExpireAll(ExpireOne(s, rows[0].0, rows[0].1, now), rows[1..], now)
  }

  /** `rows` lists every due job once, with its record at the start of the transaction. */
  ghost predicate DueRows(s: Store, rows: seq<(JobId, Job)>, now: Time) {
    && (forall i :: 0 <= i < |rows| ==> rows[i].0 in s.jobs && rows[i].1 == s.jobs[rows[i].0] && Due(rows[i].1, now))
    && (forall i, j :: 0 <= i < j < |rows| ==> rows[i].0 != rows[j].0)
    && (forall id :: id in s.jobs && Due(s.jobs[id], now) ==> (id, s.jobs[id]) in rows)
  }

  // ----- waking parents ------------------------------------------------------------

  function ChildRefs(o: Outcome): seq<PacketId> {
    var refs := Dedup(o.evidence);
    if o.result.Some? && o.result.value !in refs then refs + [o.result.value] else refs
  }

  /** Put a finished child's result into the parent's log, once. */
  function AppendChildResult(s: Store, p: JobId, g: int, child: JobId): Store
    requires p in s.jobs
  {
    if child !in s.frames || !s.frames[child].state.FrameEnded? || ChildKey(p, g, child) in s.childPackets then s
    else
      var o := s.frames[child].state.outcome;
      var parent := s.jobs[p];
      var packet := |s.outbox|;
      var body := ChildResult(child, |parent.observations| + 1, o.ending, ChildRefs(o));
      s.(outbox := s.outbox + [Row(p, ChildRefs(o))],
         childPackets := s.childPackets[ChildKey(p, g, child) := packet],
         jobs := s.jobs[p := parent.(evidence := parent.evidence + [packet],
                                     observations := parent.observations + [Observation(packet, body, None)])])
  }

  function WakeOne(s: Store, p: JobId, g: int, now: Time): Store {
    if !OutcomeReady(s, p, g) then s
    else
      var s1 := MarkReady(s, p, g);
      if !Live(s1, p) then s1
      else
        var s2 := if WaitAt(s, p, g).consumed then s1 else AppendChildResult(s1, p, g, WaitAt(s, p, g).child);
        s2.(jobs := s2.jobs[p := s2.jobs[p].(status := QueuedAfterEviction, updated := now, available := now)])
  }

  function WakeAll(s: Store, waits: seq<(JobId, int)>, now: Time): Store
    decreases |waits|
  {
    if waits == [] then s else WakeAll(WakeOne(s, waits[0].0, waits[0].1, now), waits[1..], now)
  }

  function Wake(s: Store, waits: seq<(JobId, int)>, now: Time, fits: bool): Store {
    if fits then WakeAll(s, waits, now) else s
  }

  // ----- acknowledged wakes and retired waits --------------------------------------

  predicate ConsumeReady(s: Store, p: JobId, g: int) {
    && HasWait(s, p, g) && WaitAt(s, p, g).acked && !WaitAt(s, p, g).consumed
    && OutcomeReady(s, p, g) && WaitAt(s, p, g).released
    && p in s.frames && s.frames[p].generation == g
    && p !in s.slots && WaitAt(s, p, g).child !in s.slots
  }

  function ResumeFrame(s: Store, p: JobId): Store {
    if p in s.frames && !s.frames[p].state.FrameEnded?
    then s.(frames := s.frames[p := s.frames[p].(state := FrameRunning)]) else s
  }

  function DropFrame(s: Store, c: JobId): Store {
    s.(frames := s.frames - {c})
  }

  function EndOwnFrame(s: Store, p: JobId, now: Time): Store {
    if p in s.jobs && s.jobs[p].status.Terminal()
    then s.(frames := EndFrame(s.frames, p,
      Outcome(EndingOf(s.jobs[p].status, s.jobs[p].reason), s.jobs[p].evidence, s.jobs[p].result), now))
    else s
  }

  /** Hand one acknowledged wake over: the child's frame row is dropped and a terminal
      parent's own frame is ended. */
  function ConsumeOne(s: Store, p: JobId, g: int, now: Time): Store {
    if p in s.slots then s
    else
      var s1 := MarkReady(s, p, g);
      if !ConsumeReady(s1, p, g) then s1
      else
        var w := WaitAt(s1, p, g);
        var s2 := ResumeFrame(PutWait(s1, p, g, w.(consumed := true, acked := false)), p);
        EndOwnFrame(DropFrame(s2, w.child), p, now)
  }

  predicate RetireReady(s: Store, p: JobId, g: int) {
    && HasWait(s, p, g) && !WaitAt(s, p, g).acked && p in s.jobs && s.jobs[p].status.Terminal()
    && !WaitAt(s, p, g).state.WaitRetired? && !WaitAt(s, p, g).consumed
    && p in s.frames && s.frames[p].generation == g && s.frames[p].state.FrameEnded?
    && p !in s.slots && WaitAt(s, p, g).child !in s.slots
    && (WaitAt(s, p, g).child in s.frames ==> s.frames[WaitAt(s, p, g).child].state.FrameEnded?)
  }

  /** Drop the unread result of a wait whose parent ended without it. */
  function RetireOne(s: Store, p: JobId, g: int): Store {
    if !RetireReady(s, p, g) then s
    else
      var w := WaitAt(s, p, g);
      DropFrame(PutWait(s, p, g, w.(state := WaitRetired, consumed := true, acked := false)), w.child)
  }

  function ConsumeAll(s: Store, waits: seq<(JobId, int)>, now: Time): Store
    decreases |waits|
  {
    if waits == [] then s else ConsumeAll(ConsumeOne(s, waits[0].0, waits[0].1, now), waits[1..], now)
  }

  function RetireAll(s: Store, waits: seq<(JobId, int)>): Store
    decreases |waits|
  {
    if waits == [] then s else RetireAll(RetireOne(s, waits[0].0, waits[0].1), waits[1..])
  }

  function SettleWaits(s: Store, acked: seq<(JobId, int)>, unread: seq<(JobId, int)>, now: Time): Store {
    RetireAll(ConsumeAll(s, acked, now), unread)
  }

  // ----- slots and repair ----------------------------------------------------------

  predicate ReleasesParent(s: Store, p: JobId) {
    && p in s.frames && s.frames[p].state.FrameWaiting? && WaitCount(s, p) > 0
    && s.frames[p].generation == WaitCount(s, p)
    && !WaitAt(s, p, WaitCount(s, p)).state.WaitRetired?
    && p !in s.slots
  }

  /** FrameStore.mark_parent_released: arm the child once the parent holds no slot. */
  function ReleaseParent(s: Store, p: JobId): Store {
    if !ReleasesParent(s, p) then s
    else
      var g := WaitCount(s, p);
      var s1 := PutWait(s, p, g, WaitAt(s, p, g).(released := true));
      s1.(frames := s1.frames[p := s1.frames[p].(state := FrameSuspended)])
  }

  predicate OwnsSlot(s: Store, id: JobId, attempt: int) {
    id in s.slots && s.slots[id].attempt == attempt
  }

  function KeepFailedSlot(s: Store, id: JobId, attempt: int): Store {
    s.(workers := s.workers - {(id, attempt)},
       slots := if OwnsSlot(s, id, attempt) then s.slots[id := s.slots[id].(cleanupFailed := true)] else s.slots)
  }

  function FreeSlot(s: Store, id: JobId, attempt: int): Store {
    s.(workers := s.workers - {(id, attempt)},
       slots := if OwnsSlot(s, id, attempt) then s.slots - {id} else s.slots)
  }

  /** The end of one execution: its session closed and its slot removed, or the slot kept
      and marked because the close could not be proved. */
  function Cleanup(s: Store, id: JobId, attempt: int, failed: bool): Store {
    if (id, attempt) !in s.workers then s
    else if failed then KeepFailedSlot(s, id, attempt)
    else ReleaseParent(FreeSlot(s, id, attempt), id)
  }

  /** A process dies: its executions never reach their cleanup. */
  function LoseWorkers(s: Store, lost: set<(JobId, int)>): Store {
    s.(workers := s.workers - lost)
  }

  /** The operator's removal of one exact dead owner's failed slot; `proved` is the verified
      release proof's answer. */
  function ReconcileStaleSlot(s: Store, id: JobId, attempt: int, owner: Process, alive: set<Process>,
                              proved: bool): (Store, bool) {
    if proved && id in s.jobs && s.jobs[id].status.Terminal() && attempt <= s.jobs[id].attempt
       && id in s.slots && s.slots[id].attempt == attempt && s.slots[id].owner == Some(owner)
       && s.slots[id].cleanupFailed && owner !in alive
    then (s.(slots := s.slots - {id}), true)
    else (s, false)
  }

  predicate ReleasesFailure(s: Store, i: Identity, expected: map<JobId, Reason>, delivered: set<JobId>) {
    && i in s.index && s.index[i] in s.jobs
    && var j := s.index[i];
    && j in expected && s.jobs[j].status.Terminal() && s.jobs[j].reason == expected[j]
    && !CacheEligible(s.jobs[j]) && j !in s.slots && j in delivered
  }

  /** Forget named negative answers, so that the identity can be asked again. */
  function ReleaseFailed(s: Store, expected: map<JobId, Reason>, delivered: set<JobId>): Store {
    s.(index := map i | i in s.index && !ReleasesFailure(s, i, expected, delivered) :: s.index[i])
  }
}
