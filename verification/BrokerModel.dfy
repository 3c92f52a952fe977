/** The durable rows of the observer job broker: jobs, execution slots, frames, waits,
    outbox, checkpoints and the inquiry index, as one value. */
module BrokerModel {
  import opened Prelude

  type JobId = int         // 'job_' + fixed-width hex, so SQL's text order is numeric order
  type PacketId = int      // a fresh packet takes the next outbox row number
  type Time = real
  type Identity = string   // canonical digest of an inquiry, or of one automatic preparation
  type Scope = string      // canonical wire form of a trusted access scope

  const CHECKPOINT_MAX_OBSERVATIONS: int := 24
  const CHECKPOINT_MAX_FRAME_BYTES: int := 32768
  const CHECKPOINT_MAX_BYTES: int := 96 * 1024
  const EXECUTION_SLOT_CAPACITY: int := 2
  const INDEX_CAPACITY: int := 50
  const PUBLIC_ADMISSION_LIMIT: int := 6
  const RETRY_LIMIT: int := 3
  const MAX_ROOT_DEPTH: int := 2

  datatype Status =
    | Queued | Running | Yielding | QueuedAfterEviction
    | Completed | Partial | Failed | Cancelled
  {
    predicate Terminal() { Completed? || Partial? || Failed? || Cancelled? }
  }

  /** The reason codes the broker branches on; every other text is `Other`. */
  datatype Reason =
    | NoReason
    | SliceComplete | PrivateWaitProposed | PreemptionRequested | ForegroundPreemption | SessionEvicted
    | StepBudget | StepBudgetExhausted
    | DeadlineExhausted | AttemptOrDeadlineExhausted
    | Other(code: string)

  datatype Finding = Finding(text: string, evidence: seq<PacketId>)

  /** What one observation says: a tool payload, a child's result, or the marker that
      stands for a payload too large for the worker's context. */
  datatype Body =
    | Tool(text: string)
    | ChildResult(child: JobId, ordinal: int, ending: Ending, refs: seq<PacketId>)
    | Omitted

  datatype Observation = Observation(id: PacketId, body: Body, call: Option<string>)

  datatype Job = Job(
    scope: Scope, status: Status, attempt: int, answer: string, findings: seq<Finding>,
    evidence: seq<PacketId>, observations: seq<Observation>, result: Option<PacketId>,
    hints: seq<PacketId>, deadline: Option<Time>, identity: Option<Identity>, reason: Reason,
    updated: Time, lease: Time, available: Time)

  datatype Process = Process(pid: int, start: string)

  datatype Slot = Slot(attempt: int, lease: Time, owner: Option<Process>, cleanupFailed: bool)

  /** How a frame ended: with a job status, or by a deadline. */
  datatype Ending = EndedAs(status: Status) | Expired

  datatype Outcome = Outcome(ending: Ending, evidence: seq<PacketId>, result: Option<PacketId>)

  datatype FrameState =
    | FrameQueued | FrameRunning | FrameWaiting | FrameSuspended | FrameEnded(outcome: Outcome)

  datatype Frame = Frame(
    root: JobId, parent: Option<JobId>, generation: int, depth: int, deadline: Time,
    failures: int, automatic: bool, state: FrameState)

  datatype WaitState = WaitOpen | WaitReady | WaitRetired

  /** One registered wait; the broker registers exactly one child in each. */
  datatype Wait = Wait(child: JobId, state: WaitState, released: bool, consumed: bool, acked: bool)

  /** A child's place: its parent, the parent's generation, and the depth of its frame. */
  datatype Edge = Edge(parent: JobId, generation: int, depth: int)

  datatype Row = Row(job: JobId, parents: seq<PacketId>)

  datatype ChildKey = ChildKey(parent: JobId, generation: int, child: JobId)

  datatype Checkpoint = Checkpoint(scope: Scope, attempt: int, frames: seq<Observation>)

  datatype Store = Store(
    jobs: map<JobId, Job>,
    slots: map<JobId, Slot>,
    frames: map<JobId, Frame>,
    waits: map<JobId, seq<Wait>>,          // generation g of parent p is waits[p][g - 1]
    edges: map<JobId, Edge>,
    outbox: seq<Row>,                      // insertion order; a packet's id is its row
    childPackets: map<ChildKey, PacketId>,
    checkpoints: map<JobId, Checkpoint>,
    index: map<Identity, JobId>,
    preparations: map<JobId, Identity>,
    workers: set<(JobId, int)>)            // executions whose cleanup has not run yet

  /** What the service was constructed with; the byte counts are the JSON encoder's. */
  datatype Config = Config(
    leaseSeconds: Time, retrySeconds: Option<Time>, hardLimit: int,
    frameBytes: Observation -> int, checkpointBytes: seq<Observation> -> int)

  const EMPTY := Store(map[], map[], map[], map[], map[], [], map[], map[], map[], map[], {})

  /** An answer that may be served again from the inquiry cache. */
  predicate CacheEligible(job: Job) {
    && (job.status.Completed? || job.status.Partial?)
    && (!Blank(job.answer) || exists f :: f in job.findings && !Blank(f.text) && f.evidence != [])
  }

  predicate IsPrivate(s: Store, id: JobId) {
    id in s.edges || id in s.preparations
  }

  predicate OwnerAlive(owner: Option<Process>, alive: set<Process>) {
    owner.Some? && owner.value in alive
  }

  /** Whether the job belongs to a tree admitted by automatic preparation. */
  predicate Automatic(s: Store, id: JobId) {
    && id in s.frames && s.frames[id].root in s.frames
    && s.frames[s.frames[id].root].automatic
  }

  predicate Live(s: Store, id: JobId) {
    id in s.jobs && !s.jobs[id].status.Terminal()
  }

  /** The parent is reached from the child in at most `n` steps upwards. */
  ghost predicate Under(edges: map<JobId, Edge>, id: JobId, ancestor: JobId, n: nat)
    decreases n
  {
    n > 0 && id in edges
    && (edges[id].parent == ancestor || Under(edges, edges[id].parent, ancestor, n - 1))
  }

  ghost predicate Below(edges: map<JobId, Edge>, id: JobId, ancestor: JobId) {
    exists n: nat :: Under(edges, id, ancestor, n)
  }

  /** The recursive closure of the child table under one job. */
  ghost function Descendants(edges: map<JobId, Edge>, ancestor: JobId): (r: set<JobId>)
    ensures r <= edges.Keys
  {
    set id | id in edges && Below(edges, id, ancestor)
  }

  function WaitCount(s: Store, p: JobId): int {
    if p in s.waits then |s.waits[p]| else 0
  }

  predicate HasWait(s: Store, p: JobId, g: int) {
    1 <= g <= WaitCount(s, p)
  }

  function WaitAt(s: Store, p: JobId, g: int): Wait
    requires HasWait(s, p, g)
  {
    s.waits[p][g - 1]
  }

  function PutWait(s: Store, p: JobId, g: int, w: Wait): Store
    requires HasWait(s, p, g)
  {
    s.(waits := s.waits[p := s.waits[p][g - 1 := w]])
  }
}
