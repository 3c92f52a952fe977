/** Which transactions write, and why each keeps the core and only moves jobs forward. */
module BrokerWriteSteps {
  import opened Prelude
  import opened BrokerModel
  import opened BrokerSteps
  import opened BrokerInvariant
  import opened BrokerTree
  import opened BrokerCalm
  import opened BrokerCalmSteps
  import opened BrokerWrites

  lemma CalmWrites(cfg: Config, s: Store, t: Store)
    requires Core(cfg, s) && Rooted(s.frames, s.edges, s.preparations) && Calm(s, t)
    ensures Writes(cfg, s, t)
  {
    hide Calm, Core, Rooted, Evolves;
    CalmKeepsCore(cfg, s, t);
    CalmEvolves(s, t);
  }

  lemma WritesTransitive(cfg: Config, s: Store, t: Store, u: Store)
    requires Writes(cfg, s, t) && Writes(cfg, t, u)
    ensures Writes(cfg, s, u)
  {
    hide Core, Evolves;
    EvolvesTransitive(s, t, u);
  }

  lemma Unchanged(cfg: Config, s: Store)
    requires Core(cfg, s)
    ensures Writes(cfg, s, s)
  {
    hide Core;
  }

  // ----- observations and checkpoints ----------------------------------------------

  lemma ObserveShape(cfg: Config, s: Store, id: JobId, attempt: int, text: string, now: Time, alive: set<Process>)
    requires IsRunning(s, id, attempt, now, alive)
    ensures var t := Observe(cfg, s, id, attempt, text, now, alive, true).0;
      AppendsEntry(s, t, id, Row(id, []), Tool(text)) && OnlyRow(s, t, id) && WritesOnly(s, t, id)
      && t.checkpoints == s.checkpoints
  {
  }

  lemma ObserveWrites(cfg: Config, s: Store, id: JobId, attempt: int, text: string, now: Time, alive: set<Process>,
                      fits: bool)
    requires Core(cfg, s)
    ensures Writes(cfg, s, Observe(cfg, s, id, attempt, text, now, alive, fits).0)
  {
    hide Writes, Core, AppendsEntry, OnlyRow, WritesOnly;
    if IsRunning(s, id, attempt, now, alive) && fits {
      ObserveShape(cfg, s, id, attempt, text, now, alive);
      var t := Observe(cfg, s, id, attempt, text, now, alive, fits).0;
      hide Observe;
      AppendKeepsCore(cfg, s, t, id, Row(id, []), Tool(text));
    } else {
      Unchanged(cfg, s);
    }
  }

  lemma CheckpointShape(cfg: Config, s: Store, id: JobId, attempt: int, frames: seq<Observation>,
                        scope: Option<Scope>, now: Time, alive: set<Process>)
    requires var (t, accepted) := WriteCheckpoint(cfg, s, id, attempt, frames, scope, now, alive, true); accepted
    ensures var t := WriteCheckpoint(cfg, s, id, attempt, frames, scope, now, alive, true).0;
      && OnlyRow(s, t, id) && WritesOnly(s, t, id) && SameLog(s.jobs[id], t.jobs[id]) && LedgerGrows(s, t)
      && s.jobs[id].status.Running? && t.jobs[id].status.Running? && t.jobs[id].observations == s.jobs[id].observations
      && t.checkpoints == s.checkpoints[id := Checkpoint(s.jobs[id].scope, s.jobs[id].attempt, frames)]
  {
    hide CheckpointAccepted;
  }

  lemma AcceptedFramesFaithful(cfg: Config, job: Job, frames: seq<Observation>)
    requires CheckpointAccepted(cfg, job, frames)
    ensures FramesFaithful(cfg, frames, job.observations) && EachOnce(frames)
  {
    hide FaithfulFrame;
    forall i, j | 0 <= i < j < |frames|
      ensures frames[i].id != frames[j].id
    {
      assert Position(job.observations, frames[i].id) < Position(job.observations, frames[j].id);
    }
  }

  lemma RunningRowEvolves(s: Store, t: Store, id: JobId)
    requires OnlyRow(s, t, id) && LedgerGrows(s, t) && SameLog(s.jobs[id], t.jobs[id])
    requires s.jobs[id].status.Running? && !t.jobs[id].status.Completed? && !t.jobs[id].status.Partial?
    ensures Evolves(s, t) && Substantial(t.jobs[id])
  {
    hide Hollow;
  }

  lemma CheckpointWrites(cfg: Config, s: Store, id: JobId, attempt: int, frames: seq<Observation>,
                         scope: Option<Scope>, now: Time, alive: set<Process>, fits: bool)
    requires Core(cfg, s)
    ensures Writes(cfg, s, WriteCheckpoint(cfg, s, id, attempt, frames, scope, now, alive, fits).0)
  {
    var (t, accepted) := WriteCheckpoint(cfg, s, id, attempt, frames, scope, now, alive, fits);
    if accepted {
      assert LogInv(s);
      hide Core, LogInv, CheckpointAccepted, OnlyRow, WritesOnly, SameLog, LedgerGrows, FramesFaithful, EachOnce,
        Evolves,
        Substantial, JobLog;
      CheckpointShape(cfg, s, id, attempt, frames, scope, now, alive);
      AcceptedFramesFaithful(cfg, s.jobs[id], frames);
      hide WriteCheckpoint;
      RunningRowEvolves(s, t, id);
      CheckpointRowOk(cfg, s, t, id, frames);
      RowLog(s, t, id);
      RowWriteKeepsCore(cfg, s, t, id);
    } else {
      Unchanged(cfg, s) by { hide Writes, Core, WriteCheckpoint; }
    }
  }

  lemma CheckpointRowOk(cfg: Config, s: Store, t: Store, id: JobId, frames: seq<Observation>)
    requires OnlyRow(s, t, id) && t.jobs[id].observations == s.jobs[id].observations
    requires FramesFaithful(cfg, frames, s.jobs[id].observations) && EachOnce(frames)
    ensures CheckpointOk(cfg, Checkpoint(s.jobs[id].scope, s.jobs[id].attempt, frames), t.jobs[id])
  {
    hide FramesFaithful, EachOnce;
  }

  lemma RowLog(s: Store, t: Store, id: JobId)
    requires LogInv(s) && id in s.jobs && id in t.jobs && LedgerGrows(s, t) && SameLog(s.jobs[id], t.jobs[id])
    ensures JobLog(t.outbox, t.edges, t.childPackets, id, t.jobs[id])
  {
    hide JobLog, PacketLogged, SameLog, LedgerGrows, OutcomeOwned, OutboxOrdered;
    SameLogKeepsJobLog(s, t, id, s.jobs[id], t.jobs[id]);
  }

  // ----- waking parents ------------------------------------------------------------

  /** What the tree says about a wait, as far as a child's result needs it. */
  ghost predicate WaitKnown(s: Store, p: JobId, g: int, child: JobId) {
    child in s.edges && s.edges[child].parent == p && s.edges[child].generation == g
  }

  lemma ChildRefsOwned(s: Store, child: JobId)
    requires LogInv(s) && child in s.frames && s.frames[child].state.FrameEnded?
    ensures Owned(s.outbox, ChildRefs(s.frames[child].state.outcome), child)
    ensures forall p :: p in ChildRefs(s.frames[child].state.outcome) ==> 0 <= p < |s.outbox|
  {
    hide JobLog, PacketLogged, OutboxOrdered;
    var o := s.frames[child].state.outcome;
    assert OutcomeOwned(s.outbox, child, o);
    var refs := ChildRefs(o);
    forall k | 0 <= k < |refs|
      ensures 0 <= refs[k] < |s.outbox| && s.outbox[refs[k]].job == child
    {
      assert refs[k] in refs;
      if refs[k] in o.evidence {
        var j :| 0 <= j < |o.evidence| && o.evidence[j] == refs[k];
      } else {
        assert [o.result.value][0] == refs[k];
      }
    }
  }

  lemma AppendChildShape(s: Store, p: JobId, g: int, child: JobId)
    requires LogInv(s) && p in s.jobs && WaitKnown(s, p, g, child) && AppendChildResult(s, p, g, child) != s
    ensures var t, o := AppendChildResult(s, p, g, child), s.frames[child].state.outcome;
      var body := ChildResult(child, |s.jobs[p].observations| + 1, o.ending, ChildRefs(o));
      && AppendsEntry(s, t, p, Row(p, ChildRefs(o)), body) && OnlyRow(s, t, p)
      && LedgerGrows(s, t) && t.checkpoints == s.checkpoints && t.frames == s.frames
      && t.childPackets == s.childPackets[ChildKey(p, g, child) := |s.outbox|]
  {
    hide LogInv, ChildRefs;
  }

  lemma AppendChildEntry(s: Store, t: Store, p: JobId, g: int, child: JobId, body: Body)
    requires WaitKnown(s, p, g, child) && LedgerGrows(s, t)
    requires p in s.jobs && body.ChildResult? && body.child == child && body.ordinal == |s.jobs[p].observations| + 1
    requires Owned(s.outbox, body.refs, child)
    requires t.childPackets == s.childPackets[ChildKey(p, g, child) := |s.outbox|]
    ensures ChildEntry(t.outbox, t.edges, t.childPackets, p, |s.jobs[p].observations|,
      Observation(|s.outbox|, body, None))
  {
    OwnedGrows(s.outbox, t.outbox, body.refs, child);
    hide Owned;
  }

  lemma AppendChildWritesOnly(s: Store, t: Store, p: JobId, g: int, child: JobId, refs: seq<PacketId>, body: Body)
    requires AppendsEntry(s, t, p, Row(p, refs), body) && OnlyRow(s, t, p) && LedgerGrows(s, t)
    requires body.ChildResult? && body.child == child && WaitKnown(s, p, g, child)
    requires forall r :: r in refs ==> 0 <= r < |s.outbox|
    requires t.childPackets == s.childPackets[ChildKey(p, g, child) := |s.outbox|]
    ensures WritesOnly(s, t, p)
  {
    assert PacketLogged(t.jobs, t.edges, ChildKey(p, g, child), |s.outbox|) by {
      var k := |s.jobs[p].observations|;
      assert t.jobs[p].observations[k] == Observation(|s.outbox|, body, None);
      hide AppendsEntry, OnlyRow;
    }
    hide PacketLogged, LedgerGrows;
  }

  lemma AppendChildWrites(cfg: Config, s: Store, p: JobId, g: int, child: JobId)
    requires Core(cfg, s) && Live(s, p) && WaitKnown(s, p, g, child)
    ensures Writes(cfg, s, AppendChildResult(s, p, g, child))
    ensures AppendChildResult(s, p, g, child).jobs.Keys == s.jobs.Keys
    ensures AppendChildResult(s, p, g, child).jobs[p].status == s.jobs[p].status
    ensures AppendChildResult(s, p, g, child).frames == s.frames && AppendChildResult(s, p, g, child).edges == s.edges
    ensures AppendChildResult(s, p, g, child).preparations == s.preparations
  {
    var t := AppendChildResult(s, p, g, child);
    if t == s {
      Unchanged(cfg, s) by { hide Writes, Core, AppendChildResult; }
    } else {
      assert LogInv(s);
      hide Core, LogInv, Writes, ChildRefs, AppendsEntry, OnlyRow, LedgerGrows, WritesOnly, ChildEntry, Owned;
      var o := s.frames[child].state.outcome;
      var body := ChildResult(child, |s.jobs[p].observations| + 1, o.ending, ChildRefs(o));
      ChildRefsOwned(s, child);
      AppendChildShape(s, p, g, child);
      AppendChildWritesOnly(s, t, p, g, child, ChildRefs(o), body);
      AppendChildEntry(s, t, p, g, child, body);
      AppendKeepsCore(cfg, s, t, p, Row(p, ChildRefs(o)), body);
    }
  }

  lemma WaitIsKnown(s: Store, p: JobId, g: int)
    requires TreeInv(s) && HasWait(s, p, g)
    ensures WaitKnown(s, p, g, WaitAt(s, p, g).child)
  {
    hide FramesMatchWaits, FramesMatchJobs, NoOrphans, OnePreparation, DepthBounded, Rooted;
  }

  lemma ReadyWaitShape(s: Store, p: JobId, g: int)
    requires HasWait(s, p, g)
    ensures HasWait(MarkReady(s, p, g), p, g) && WaitAt(MarkReady(s, p, g), p, g).child == WaitAt(s, p, g).child
    ensures WaitAt(MarkReady(s, p, g), p, g).consumed == WaitAt(s, p, g).consumed
    ensures MarkReady(s, p, g) == s.(waits := MarkReady(s, p, g).waits)
  {
    hide ChildEnded;
  }

  lemma WakeOneWrites(cfg: Config, s: Store, p: JobId, g: int, now: Time)
    requires Core(cfg, s) && TreeInv(s)
    ensures Writes(cfg, s, WakeOne(s, p, g, now))
  {
    if !OutcomeReady(s, p, g) {
      Unchanged(cfg, s) by { hide Writes, Core, TreeInv; }
    } else {
      var s1 := MarkReady(s, p, g);
      assert Rooted(s.frames, s.edges, s.preparations) by { hide Rooted, Core; }
      WaitIsKnown(s, p, g) by { hide Core, WaitKnown, TreeInv; }
      assert HasWait(s, p, g);
      hide Core, TreeInv, Writes, Rooted, OutcomeReady, AppendChildResult, Calm;
      ReadyWaitShape(s, p, g);
      MarkReadyCalm(s, p, g);
      CalmWrites(cfg, s, s1);
      hide MarkReady;
      if Live(s1, p) {
        QueueParentWrites(cfg, s1, p, g, WaitAt(s, p, g).child, WaitAt(s, p, g).consumed, now);
        WritesTransitive(cfg, s, s1, WakeOne(s, p, g, now));
      }
    }
  }

  lemma QueueParentWrites(cfg: Config, s: Store, p: JobId, g: int, child: JobId, consumed: bool, now: Time)
    requires Writes(cfg, s, s) || Core(cfg, s)
    requires Rooted(s.frames, s.edges, s.preparations) && Live(s, p) && WaitKnown(s, p, g, child)
    ensures var s2 := if consumed then s else AppendChildResult(s, p, g, child);
      p in s2.jobs
        && Writes(cfg, s,
          s2.(jobs := s2.jobs[p := s2.jobs[p].(status := QueuedAfterEviction, updated := now, available := now)]))
  {
    assert Core(cfg, s) by { hide Core, Rooted, Evolves; }
    hide Core, Rooted, WaitKnown, AppendChildResult, Evolves;
    var s2 := if consumed then s else AppendChildResult(s, p, g, child);
    AppendChildWrites(cfg, s, p, g, child);
    Unchanged(cfg, s);
    assert Writes(cfg, s, s2);
    var job := s2.jobs[p].(status := QueuedAfterEviction, updated := now, available := now);
    assert JobCalm(s2.jobs[p], job) by { hide Writes, Calm; }
    hide Calm, JobCalm, Writes;
    RowCalm(s2, p, job);
    assert Core(cfg, s2) by { assert Writes(cfg, s, s2); CoreOf(cfg, s, s2); }
    CalmWrites(cfg, s2, s2.(jobs := s2.jobs[p := job]));
    WritesTransitive(cfg, s, s2, s2.(jobs := s2.jobs[p := job]));
  }

  lemma CoreOf(cfg: Config, s: Store, t: Store)
    requires Writes(cfg, s, t)
    ensures Core(cfg, t) && Evolves(s, t)
  {
    hide Core, Evolves;
  }
}
