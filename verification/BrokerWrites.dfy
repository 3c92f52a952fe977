/** The transactions that do write: new jobs, started attempts, log entries, checkpoints and
    reports. Each keeps everything calm changes keep. */
module BrokerWrites {
  import opened Prelude
  import opened BrokerModel
  import opened BrokerSteps
  import opened BrokerInvariant
  import opened BrokerCalm

  // ----- the log -------------------------------------------------------------------

  ghost predicate LedgerGrows(s: Store, t: Store) {
    && s.outbox <= t.outbox
    && (forall c :: c in s.edges ==> c in t.edges && t.edges[c] == s.edges[c])
    && (forall key :: key in s.childPackets ==> key in t.childPackets && t.childPackets[key] == s.childPackets[key])
  }

  lemma OwnedGrows(a: seq<Row>, b: seq<Row>, ids: seq<PacketId>, id: JobId)
    requires a <= b && Owned(a, ids, id)
    ensures Owned(b, ids, id)
  {
    forall k | 0 <= k < |ids|
      ensures 0 <= ids[k] < |b| && b[ids[k]].job == id
    {
      assert a[ids[k]] == b[ids[k]];
    }
  }

  lemma EntryGrows(s: Store, t: Store, id: JobId, k: int, o: Observation)
    requires LedgerGrows(s, t) && ChildEntry(s.outbox, s.edges, s.childPackets, id, k, o)
    ensures ChildEntry(t.outbox, t.edges, t.childPackets, id, k, o)
  {
    hide Owned;
    if o.body.ChildResult? {
      OwnedGrows(s.outbox, t.outbox, o.body.refs, o.body.child);
    }
  }

  lemma JobLogGrows(s: Store, t: Store, id: JobId, job: Job)
    requires LedgerGrows(s, t) && JobLog(s.outbox, s.edges, s.childPackets, id, job)
    ensures JobLog(t.outbox, t.edges, t.childPackets, id, job)
  {
    hide Owned, ChildEntry, LogMatchesEvidence;
    OwnedGrows(s.outbox, t.outbox, job.evidence, id);
    if job.result.Some? {
      OwnedGrows(s.outbox, t.outbox, [job.result.value], id);
    }
    forall k | 0 <= k < |job.observations|
      ensures ChildEntry(t.outbox, t.edges, t.childPackets, id, k, job.observations[k])
    {
      EntryGrows(s, t, id, k, job.observations[k]);
    }
  }

  lemma SameLogKeepsJobLog(s: Store, t: Store, id: JobId, x: Job, y: Job)
    requires LedgerGrows(s, t) && JobLog(s.outbox, s.edges, s.childPackets, id, x) && SameLog(x, y)
    ensures JobLog(t.outbox, t.edges, t.childPackets, id, y)
  {
    JobLogGrows(s, t, id, x);
    hide LedgerGrows, Owned, ChildEntry;
  }

  lemma PacketLoggedGrows(s: Store, t: Store, key: ChildKey, packet: PacketId)
    requires LedgerGrows(s, t) && PacketLogged(s.jobs, s.edges, key, packet)
    requires key.parent in t.jobs && s.jobs[key.parent].observations <= t.jobs[key.parent].observations
    ensures PacketLogged(t.jobs, t.edges, key, packet)
  {
    var a, b := s.jobs[key.parent].observations, t.jobs[key.parent].observations;
    var k :| 0 <= k < |a| && a[k].id == packet && a[k].body.ChildResult? && a[k].body.child == key.child;
    assert b[k] == a[k];
  }

  /** One job's log is written, and the others are as they were. */
  ghost predicate WritesOnly(s: Store, t: Store, id: JobId) {
    && LedgerGrows(s, t)
    && (forall x :: x in s.jobs ==> x in t.jobs && s.jobs[x].observations <= t.jobs[x].observations)
    && (forall x :: x in t.jobs && x != id ==> x in s.jobs && SameLog(s.jobs[x], t.jobs[x]))
    && (forall x :: x in t.frames && t.frames[x].state.FrameEnded? ==>
         x in s.frames && t.frames[x].state == s.frames[x].state)
    && (forall k :: |s.outbox| <= k < |t.outbox| ==>
         t.outbox[k].job in t.jobs && forall p :: p in t.outbox[k].parents ==> 0 <= p < k)
    && (forall key :: key in t.childPackets && key !in s.childPackets ==>
         PacketLogged(t.jobs, t.edges, key, t.childPackets[key]))
  }

  lemma WriteKeepsLog(s: Store, t: Store, id: JobId)
    requires LogInv(s) && WritesOnly(s, t, id)
    requires id in t.jobs ==> JobLog(t.outbox, t.edges, t.childPackets, id, t.jobs[id])
    ensures LogInv(t)
  {
    WriteKeepsJobLogs(s, t, id);
    WriteKeepsPackets(s, t, id);
    WriteKeepsOutcomes(s, t, id);
    WriteKeepsOrder(s, t, id);
    hide WritesOnly, JobLog, PacketLogged, OutcomeOwned, OutboxOrdered;
  }

  lemma WriteKeepsJobLogs(s: Store, t: Store, id: JobId)
    requires LogInv(s) && WritesOnly(s, t, id)
    requires id in t.jobs ==> JobLog(t.outbox, t.edges, t.childPackets, id, t.jobs[id])
    ensures forall x :: x in t.jobs ==> JobLog(t.outbox, t.edges, t.childPackets, x, t.jobs[x])
  {
    hide LedgerGrows, JobLog, PacketLogged, OutcomeOwned, OutboxOrdered, SameLog;
    forall x | x in t.jobs
      ensures JobLog(t.outbox, t.edges, t.childPackets, x, t.jobs[x])
    {
      if x != id {
        SameLogKeepsJobLog(s, t, x, s.jobs[x], t.jobs[x]);
      }
    }
  }

  lemma WriteKeepsPackets(s: Store, t: Store, id: JobId)
    requires LogInv(s) && WritesOnly(s, t, id)
    ensures forall key :: key in t.childPackets ==> PacketLogged(t.jobs, t.edges, key, t.childPackets[key])
  {
    hide JobLog, OutcomeOwned, OutboxOrdered, SameLog;
    forall key | key in t.childPackets
      ensures PacketLogged(t.jobs, t.edges, key, t.childPackets[key])
    {
      if key in s.childPackets {
        PacketLoggedGrows(s, t, key, s.childPackets[key]);
      }
    }
  }

  lemma WriteKeepsOutcomes(s: Store, t: Store, id: JobId)
    requires LogInv(s) && WritesOnly(s, t, id)
    ensures forall x :: x in t.frames && t.frames[x].state.FrameEnded? ==>
      OutcomeOwned(t.outbox, x, t.frames[x].state.outcome)
  {
    hide JobLog, PacketLogged, OutboxOrdered, SameLog, Owned;
    forall x | x in t.frames && t.frames[x].state.FrameEnded?
      ensures OutcomeOwned(t.outbox, x, t.frames[x].state.outcome)
    {
      var o := t.frames[x].state.outcome;
      assert OutcomeOwned(s.outbox, x, o);
      OwnedGrows(s.outbox, t.outbox, o.evidence, x);
      if o.result.Some? {
        OwnedGrows(s.outbox, t.outbox, [o.result.value], x);
      }
    }
  }

  lemma WriteKeepsOrder(s: Store, t: Store, id: JobId)
    requires LogInv(s) && WritesOnly(s, t, id)
    ensures OutboxOrdered(t.jobs.Keys, t.outbox)
  {
    hide JobLog, PacketLogged, OutcomeOwned, SameLog;
    forall k | 0 <= k < |t.outbox|
      ensures t.outbox[k].job in t.jobs.Keys && forall p :: p in t.outbox[k].parents ==> 0 <= p < k
    {
      if k < |s.outbox| {
        assert t.outbox[k] == s.outbox[k];
      }
    }
  }

  // ----- everything but the log ----------------------------------------------------

  /** The same attempt of the same question; ended jobs stay ended. */
  ghost predicate Stands(x: Job, y: Job) {
    && y.attempt == x.attempt && y.identity == x.identity && y.scope == x.scope
    && (x.status.Terminal() ==> y.status.Terminal())
    && x.observations <= y.observations
  }

  ghost predicate OnlyRow(s: Store, t: Store, id: JobId) {
    && t.slots == s.slots && t.workers == s.workers && t.frames == s.frames && t.edges == s.edges
    && t.preparations == s.preparations && t.index == s.index
    && id in s.jobs && id in t.jobs && t.jobs == s.jobs[id := t.jobs[id]] && Stands(s.jobs[id], t.jobs[id])
  }

  lemma RowKeepsSlots(s: Store, t: Store, id: JobId)
    requires SlotsMatchJobs(s) && SlotsBounded(s) && AdmissionBounded(s) && OnlyRow(s, t, id)
    ensures SlotsMatchJobs(t) && SlotsBounded(t) && AdmissionBounded(t)
  {
    assert AutomaticSlots(t) == AutomaticSlots(s) by { hide SlotsMatchJobs; }
    assert PublicLoad(t) <= PublicLoad(s) by { hide SlotsMatchJobs; }
    hide AutomaticSlots, PublicLoad;
    SubsetSize(PublicLoad(t), PublicLoad(s));
  }

  lemma RowKeepsIndex(s: Store, t: Store, id: JobId)
    requires IndexMatchesJobs(s.jobs, s.index) && OnlyRow(s, t, id)
    ensures IndexMatchesJobs(t.jobs, t.index)
  {
  }

  lemma PositionGrows(a: seq<Observation>, b: seq<Observation>, id: PacketId)
    requires a <= b && Position(a, id) < |a|
    ensures Position(b, id) == Position(a, id)
  {
    var k := Position(a, id);
    assert b[k] == a[k];
    assert forall i :: 0 <= i < k ==> b[i] == a[i];
  }

  lemma FramesStayFaithful(cfg: Config, frames: seq<Observation>, a: seq<Observation>, b: seq<Observation>)
    requires a <= b && FramesFaithful(cfg, frames, a)
    ensures FramesFaithful(cfg, frames, b)
  {
    forall i | 0 <= i < |frames|
      ensures Position(b, frames[i].id) < |b| && FaithfulFrame(cfg, b[Position(b, frames[i].id)], frames[i])
    {
      PositionGrows(a, b, frames[i].id);
      assert b[Position(a, frames[i].id)] == a[Position(a, frames[i].id)];
    }
  }

  lemma RowKeepsCheckpoints(cfg: Config, s: Store, t: Store, id: JobId)
    requires CheckpointInv(cfg, s) && OnlyRow(s, t, id)
    requires t.checkpoints == s.checkpoints
             || (id in t.checkpoints && t.checkpoints == s.checkpoints[id := t.checkpoints[id]]
                 && CheckpointOk(cfg, t.checkpoints[id], t.jobs[id]))
    ensures CheckpointInv(cfg, t)
  {
    hide FramesFaithful;
    forall x | x in t.checkpoints
      ensures x in t.jobs && CheckpointOk(cfg, t.checkpoints[x], t.jobs[x])
    {
      if x in s.checkpoints && t.checkpoints[x] == s.checkpoints[x] {
        FramesStayFaithful(cfg, s.checkpoints[x].frames, s.jobs[x].observations, t.jobs[x].observations);
      }
    }
  }

  ghost predicate Substantial(job: Job) {
    Success(job) ==> !Hollow(job.answer, job.findings, job.evidence)
  }

  lemma RowKeepsSuccess(s: Store, t: Store, id: JobId)
    requires SuccessInv(s) && OnlyRow(s, t, id) && Substantial(t.jobs[id])
    ensures SuccessInv(t)
  {
    hide Hollow;
  }

  /** A log entry, a checkpoint or a report written into one row keeps the core. */
  lemma RowWriteKeepsCore(cfg: Config, s: Store, t: Store, id: JobId)
    requires Core(cfg, s) && OnlyRow(s, t, id) && WritesOnly(s, t, id)
    requires JobLog(t.outbox, t.edges, t.childPackets, id, t.jobs[id]) && Substantial(t.jobs[id])
    requires t.checkpoints == s.checkpoints
             || (id in t.checkpoints && t.checkpoints == s.checkpoints[id := t.checkpoints[id]]
                 && CheckpointOk(cfg, t.checkpoints[id], t.jobs[id]))
    ensures Core(cfg, t)
  {
    hide OnlyRow, WritesOnly, SlotsMatchJobs, SlotsBounded, AdmissionBounded, LogInv, CheckpointInv, IndexMatchesJobs,
      SuccessInv, JobLog, Substantial, CheckpointOk;
    RowKeepsSlots(s, t, id);
    RowKeepsIndex(s, t, id);
    RowKeepsCheckpoints(cfg, s, t, id);
    RowKeepsSuccess(s, t, id);
    WriteKeepsLog(s, t, id);
  }

  // ----- observations --------------------------------------------------------------

  /** The row of a job whose log takes one more entry. */
  ghost predicate AppendsEntry(s: Store, t: Store, id: JobId, row: Row, body: Body) {
    && id in s.jobs && id in t.jobs && t.jobs == s.jobs[id := t.jobs[id]]
    && t.outbox == s.outbox + [row] && row.job == id
    && t.jobs[id].evidence == s.jobs[id].evidence + [|s.outbox|]
    && t.jobs[id].observations == s.jobs[id].observations + [Observation(|s.outbox|, body, None)]
    && t.jobs[id].findings == s.jobs[id].findings && t.jobs[id].answer == s.jobs[id].answer
    && t.jobs[id].result == s.jobs[id].result && t.jobs[id].status == s.jobs[id].status
    && Stands(s.jobs[id], t.jobs[id])
    && t.jobs[id].hints == s.jobs[id].hints && t.jobs[id].deadline == s.jobs[id].deadline
    && !body.Omitted?
  }

  lemma AppendKeepsMatch(s: Store, t: Store, id: JobId, row: Row, body: Body)
    requires AppendsEntry(s, t, id, row, body)
    requires LogMatchesEvidence(s.jobs[id]) && Owned(s.outbox, s.jobs[id].evidence, id)
    ensures LogMatchesEvidence(t.jobs[id]) && Owned(t.outbox, t.jobs[id].evidence, id)
  {
    var a, b := s.jobs[id], t.jobs[id];
    OwnedGrows(s.outbox, t.outbox, a.evidence, id);
    assert forall k :: 0 <= k < |a.evidence| ==>
      b.evidence[k] == a.evidence[k] && b.observations[k] == a.observations[k];
    assert Ascending(b.evidence);
    assert FindingsObserved(b.findings, b.evidence);
  }

  lemma AppendKeepsJobLog(s: Store, t: Store, id: JobId, row: Row, body: Body)
    requires AppendsEntry(s, t, id, row, body) && LedgerGrows(s, t)
    requires JobLog(s.outbox, s.edges, s.childPackets, id, s.jobs[id])
    requires ChildEntry(t.outbox, t.edges, t.childPackets, id, |s.jobs[id].observations|,
      Observation(|s.outbox|, body, None))
    ensures JobLog(t.outbox, t.edges, t.childPackets, id, t.jobs[id])
  {
    AppendKeepsMatch(s, t, id, row, body) by { hide LedgerGrows, ChildEntry; }
    JobLogGrows(s, t, id, s.jobs[id]) by { hide AppendsEntry, ChildEntry; }
    hide LogMatchesEvidence, Owned, ChildEntry, LedgerGrows;
    var a, b := s.jobs[id], t.jobs[id];
    forall k | 0 <= k < |b.observations|
      ensures ChildEntry(t.outbox, t.edges, t.childPackets, id, k, b.observations[k])
    {
      if k < |a.observations| {
        assert b.observations[k] == a.observations[k];
      }
    }
  }

  ghost predicate Writes(cfg: Config, s: Store, t: Store) {
    Core(cfg, t) && Evolves(s, t)
  }

  lemma AppendEvolves(s: Store, t: Store, id: JobId, row: Row, body: Body)
    requires AppendsEntry(s, t, id, row, body) && LedgerGrows(s, t) && !s.jobs[id].status.Terminal()
    ensures Evolves(s, t) && Substantial(t.jobs[id])
  {
    hide Hollow;
  }

  lemma AppendKeepsCore(cfg: Config, s: Store, t: Store, id: JobId, row: Row, body: Body)
    requires Core(cfg, s) && AppendsEntry(s, t, id, row, body) && OnlyRow(s, t, id) && WritesOnly(s, t, id)
    requires t.checkpoints == s.checkpoints && !s.jobs[id].status.Terminal()
    requires ChildEntry(t.outbox, t.edges, t.childPackets, id, |s.jobs[id].observations|,
      Observation(|s.outbox|, body, None))
    ensures Writes(cfg, s, t)
  {
    assert SuccessInv(s) && LogInv(s);
    hide Core, LogMatchesEvidence, Owned, ChildEntry, OnlyRow, Substantial, Evolves;
    AppendEvolves(s, t, id, row, body) by { hide LogInv, SuccessInv; }
    AppendKeepsJobLog(s, t, id, row, body) by { hide SuccessInv, WritesOnly; }
    hide LogInv, SuccessInv, JobLog, WritesOnly, AppendsEntry;
    RowWriteKeepsCore(cfg, s, t, id);
  }
}
