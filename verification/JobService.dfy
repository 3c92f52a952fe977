/** The broker itself: its tables as fields, one method per transaction. Every method leaves
    exactly the store its transaction function describes, and keeps the invariant. */
module JobServiceModule {
  import opened Prelude
  import opened BrokerModel
  import opened BrokerSteps
  import Spec = BrokerSteps
  import opened BrokerInvariant
  import opened BrokerTree
  import opened BrokerTreeSteps
  import opened BrokerCalm
  import opened BrokerCalmSteps
  import opened BrokerStarts
  import opened BrokerClaims
  import opened BrokerSafety
  import opened BrokerSelection
  import opened BrokerRuns
  import opened BrokerTables
  import opened BrokerWakes
  import BrokerReference
  import BrokerWakeEffects
  import opened JobServiceFacts

  lemma TrimRows(s: Store)
    ensures Spec.TrimIndex(s) == s.(index := Spec.TrimIndex(s).index)
  {
  }

  // ----- each transaction keeps the invariant and is what it should be --------------------------------------

  lemma StepStaysValid(cfg: Config, s: Store, e: Event)
    requires Inv(cfg, s) && Enabled(s, e)
    ensures Inv(cfg, Apply(cfg, s, e)) && BrokerReference.StepIs(cfg, s, e, Apply(cfg, s, e))
  {
    hide Inv, Enabled, Apply, Evolves, BrokerReference.StepIs, TreeInv, SlotsMatchJobs, LogMatchesEvidence;
    StepKeepsInvariant(cfg, s, e);
    BrokerReference.PartsOf(cfg, s);
    BrokerReference.StepMeans(cfg, s, e);
  }

  lemma HeartbeatStaysValid(cfg: Config, s: Store, id: JobId, attempt: int, now: Time)
    requires Inv(cfg, s)
    ensures Inv(cfg, Spec.Heartbeat(cfg, s, id, attempt, now))
    ensures BrokerReference.StepIs(cfg, s, Beaten(id, attempt, now), Spec.Heartbeat(cfg, s, id, attempt, now))
  {
    hide Inv, BrokerReference.StepIs, Spec.Heartbeat;
    StepStaysValid(cfg, s, Beaten(id, attempt, now));
  }

  lemma ObserveStaysValid(cfg: Config, s: Store, id: JobId, attempt: int, text: string, now: Time, alive: set<Process>,
                          fits: bool)
    requires Inv(cfg, s)
    ensures Inv(cfg, Spec.Observe(cfg, s, id, attempt, text, now, alive, fits).0)
    ensures BrokerReference.StepIs(cfg, s, Observed(id, attempt, text, now, alive, fits),
      Spec.Observe(cfg, s, id, attempt, text, now, alive, fits).0)
  {
    hide Inv, BrokerReference.StepIs, Spec.Observe;
    StepStaysValid(cfg, s, Observed(id, attempt, text, now, alive, fits));
  }

  lemma CheckpointStaysValid(cfg: Config, s: Store, id: JobId, attempt: int, frames: seq<Observation>,
                             scope: Option<Scope>,
                             now: Time, alive: set<Process>, fits: bool)
    requires Inv(cfg, s)
    ensures Inv(cfg, Spec.WriteCheckpoint(cfg, s, id, attempt, frames, scope, now, alive, fits).0)
    ensures BrokerReference.StepIs(cfg, s, Checkpointed(id, attempt, frames, scope, now, alive, fits),
      Spec.WriteCheckpoint(cfg, s, id, attempt, frames, scope, now, alive, fits).0)
  {
    hide Inv, BrokerReference.StepIs, Spec.WriteCheckpoint;
    StepStaysValid(cfg, s, Checkpointed(id, attempt, frames, scope, now, alive, fits));
  }

  lemma PrivateWaitStaysValid(cfg: Config, s: Store, id: JobId, attempt: int, child: JobId, now: Time,
                              alive: set<Process>, room: bool)
    requires Inv(cfg, s) && child !in s.jobs
    ensures Inv(cfg, Spec.PrivateWait(s, id, attempt, child, now, alive, room).0)
    ensures BrokerReference.StepIs(cfg, s, Waited(id, attempt, child, now, alive, room),
      Spec.PrivateWait(s, id, attempt, child, now, alive, room).0)
  {
    hide Inv, BrokerReference.StepIs, Spec.PrivateWait;
    StepStaysValid(cfg, s, Waited(id, attempt, child, now, alive, room));
  }

  lemma SubmitStaysValid(cfg: Config, s: Store, r: Request, now: Time)
    requires Inv(cfg, s) && r.id !in s.jobs
    ensures Inv(cfg, Spec.Submit(cfg, s, r, now).0)
    ensures BrokerReference.StepIs(cfg, s, Submitted(r, now), Spec.Submit(cfg, s, r, now).0)
  {
    hide Inv, BrokerReference.StepIs, Spec.Submit;
    StepStaysValid(cfg, s, Submitted(r, now));
  }

  lemma PrepareStaysValid(cfg: Config, s: Store, id: JobId, scope: Scope, work: Identity, deadline: Time, now: Time,
                          permitted: bool, fits: bool, stale: seq<JobId>)
    requires Inv(cfg, s) && id !in s.jobs && forall j :: j in stale <==> StalePreparation(s, j, work)
    ensures Inv(cfg, Spec.Prepare(s, id, scope, work, deadline, now, permitted, fits, stale).0)
    ensures BrokerReference.StepIs(cfg, s, Prepared(id, scope, work, deadline, now, permitted, fits, stale),
      Spec.Prepare(s, id, scope, work, deadline, now, permitted, fits, stale).0)
  {
    hide Inv, BrokerReference.StepIs, Spec.Prepare, StalePreparation;
    StepStaysValid(cfg, s, Prepared(id, scope, work, deadline, now, permitted, fits, stale));
  }

  lemma ClaimStaysValid(cfg: Config, s: Store, rows: seq<JobId>, d: Dispatch)
    requires Inv(cfg, s) && DispatchOrder(s, rows)
    ensures Inv(cfg, Spec.Claim(cfg, s, rows, d).0)
    ensures BrokerReference.StepIs(cfg, s, Claimed(rows, d), Spec.Claim(cfg, s, rows, d).0)
  {
    hide Inv, BrokerReference.StepIs, Spec.Claim;
    StepStaysValid(cfg, s, Claimed(rows, d));
  }

  lemma FinishStaysValid(cfg: Config, s: Store, id: JobId, attempt: int, report: Report, now: Time, late: Time,
                         alive: set<Process>, fits: bool)
    requires Inv(cfg, s)
    ensures Inv(cfg, Spec.Finish(cfg, s, id, attempt, report, now, late, alive, fits).0)
    ensures BrokerReference.StepIs(cfg, s, Finished(id, attempt, report, now, late, alive, fits),
      Spec.Finish(cfg, s, id, attempt, report, now, late, alive, fits).0)
  {
    hide Inv, BrokerReference.StepIs, Spec.Finish;
    StepStaysValid(cfg, s, Finished(id, attempt, report, now, late, alive, fits));
  }

  lemma CancelStaysValid(cfg: Config, s: Store, id: JobId, scope: Scope, now: Time)
    requires Inv(cfg, s)
    ensures Inv(cfg, Spec.Cancel(s, id, scope, now).0) && Inv(cfg, Spec.CancelPreparation(s, id, scope, now).0)
    ensures BrokerReference.StepIs(cfg, s, CancelledBy(id, scope, now), Spec.Cancel(s, id, scope, now).0)
    ensures BrokerReference.StepIs(cfg, s, PreparationCancelled(id, scope, now),
      Spec.CancelPreparation(s, id, scope, now).0)
  {
    hide Inv, BrokerReference.StepIs, Spec.Cancel, Spec.CancelPreparation;
    StepStaysValid(cfg, s, CancelledBy(id, scope, now));
    StepStaysValid(cfg, s, PreparationCancelled(id, scope, now));
  }

  lemma ExpireStaysValid(cfg: Config, s: Store, rows: seq<(JobId, Job)>, now: Time)
    requires Inv(cfg, s) && DueRows(s, rows, now)
    ensures Inv(cfg, Spec.ExpireAll(s, rows, now))
    ensures BrokerReference.StepIs(cfg, s, ExpiredAt(rows, now), Spec.ExpireAll(s, rows, now))
  {
    hide Inv, BrokerReference.StepIs, Spec.ExpireAll;
    StepStaysValid(cfg, s, ExpiredAt(rows, now));
  }

  /** Every wait that is over is listed, so the wake is complete for every parent. */
  lemma WakeIsComplete(cfg: Config, s: Store, rows: seq<(JobId, int)>, now: Time)
    requires Inv(cfg, s)
    requires forall w :: w in rows <==> HasWait(s, w.0, w.1) && !WaitAt(s, w.0, w.1).state.WaitRetired?
    ensures forall p :: BrokerWakeEffects.ParentAfter(s, Wake(s, rows, now, true), p, true, now)
  {
    TreeOf(cfg, s);
    hide Inv, TreeInv, Wake, BrokerWakeEffects.ResultFiled;
    forall p
      ensures BrokerWakeEffects.ParentAfter(s, Wake(s, rows, now, true), p, true, now)
    {
      BrokerWakeEffects.WakeMeans(s, rows, now, p);
      assert BrokerWakeEffects.Over(s, p) ==> (p, 1) in rows;
    }
  }

  lemma WakeStaysValid(cfg: Config, s: Store, waits: seq<(JobId, int)>, now: Time, fits: bool)
    requires Inv(cfg, s)
    ensures Inv(cfg, Spec.Wake(s, waits, now, fits))
    ensures BrokerReference.StepIs(cfg, s, Woken(waits, now, fits), Spec.Wake(s, waits, now, fits))
  {
    hide Inv, BrokerReference.StepIs, Spec.Wake;
    StepStaysValid(cfg, s, Woken(waits, now, fits));
  }

  lemma SettleStaysValid(cfg: Config, s: Store, acked: seq<(JobId, int)>, unread: seq<(JobId, int)>, now: Time)
    requires Inv(cfg, s)
    ensures Inv(cfg, Spec.SettleWaits(s, acked, unread, now))
    ensures BrokerReference.StepIs(cfg, s, Settled(acked, unread, now), Spec.SettleWaits(s, acked, unread, now))
  {
    hide Inv, BrokerReference.StepIs, Spec.SettleWaits;
    StepStaysValid(cfg, s, Settled(acked, unread, now));
  }

  lemma CleanupStaysValid(cfg: Config, s: Store, id: JobId, attempt: int, failed: bool)
    requires Inv(cfg, s)
    ensures Inv(cfg, Spec.Cleanup(s, id, attempt, failed))
    ensures BrokerReference.StepIs(cfg, s, CleanedUp(id, attempt, failed), Spec.Cleanup(s, id, attempt, failed))
  {
    hide Inv, BrokerReference.StepIs, Spec.Cleanup;
    StepStaysValid(cfg, s, CleanedUp(id, attempt, failed));
  }

  lemma ReconcileStaysValid(cfg: Config, s: Store, id: JobId, attempt: int, owner: Process, alive: set<Process>,
                            proved: bool)
    requires Inv(cfg, s)
    ensures Inv(cfg, Spec.ReconcileStaleSlot(s, id, attempt, owner, alive, proved).0)
    ensures BrokerReference.StepIs(cfg, s, SlotReconciled(id, attempt, owner, alive, proved),
      Spec.ReconcileStaleSlot(s, id, attempt, owner, alive, proved).0)
  {
    hide Inv, BrokerReference.StepIs, Spec.ReconcileStaleSlot;
    StepStaysValid(cfg, s, SlotReconciled(id, attempt, owner, alive, proved));
  }

  lemma ReleaseStaysValid(cfg: Config, s: Store, expected: map<JobId, Reason>, delivered: set<JobId>)
    requires Inv(cfg, s)
    ensures Inv(cfg, Spec.ReleaseFailed(s, expected, delivered))
    ensures BrokerReference.StepIs(cfg, s, FailuresReleased(expected, delivered),
      Spec.ReleaseFailed(s, expected, delivered))
  {
    hide Inv, BrokerReference.StepIs, Spec.ReleaseFailed;
    StepStaysValid(cfg, s, FailuresReleased(expected, delivered));
  }

  class JobService {
    const cfg: Config
    var jobs: map<JobId, Job>
    var slots: map<JobId, Slot>
    var frames: map<JobId, Frame>
    var waits: map<JobId, seq<Wait>>
    var edges: map<JobId, Edge>
    var outbox: seq<Row>
    var childPackets: map<ChildKey, PacketId>
    var checkpoints: map<JobId, Checkpoint>
    var index: map<Identity, JobId>
    var preparations: map<JobId, Identity>
    var workers: set<(JobId, int)>

    function View(): Store
      reads this
    {
      Store(jobs, slots, frames, waits, edges, outbox, childPackets, checkpoints, index, preparations, workers)
    }

    ghost predicate Valid()
      reads this
    {
      Inv(cfg, View())
    }

    constructor (cfg: Config)
      ensures this.cfg == cfg && View() == EMPTY && Valid()
    {
      this.cfg := cfg;
      jobs, slots, frames, waits, edges, outbox := map[], map[], map[], map[], map[], [];
      childPackets, checkpoints, index, preparations, workers := map[], map[], map[], map[], {};
      new;
      hide Inv;
      EmptyStoreInvariant(cfg);
    }

    // ----- pieces of transactions ------------------------------------------------

    /** The fence: the exact attempt, running, leased or with its owner alive. */
    method Running(id: JobId, attempt: int, now: Time, alive: set<Process>) returns (running: bool)
      ensures running == IsRunning(View(), id, attempt, now, alive)
    {
      if id !in jobs || jobs[id].attempt != attempt || !jobs[id].status.Running? {
        return false;
      }
      if now < jobs[id].lease {
        return true;
      }
      return id in slots && slots[id].attempt == attempt && OwnerAlive(slots[id].owner, alive);
    }

    /** The rows of the recursive query under one parent, by a worklist. */
    method DescendantRows(parent: JobId) returns (found: seq<JobId>)
      requires DepthBounded(frames, edges)
      ensures Distinct(found) && SetOf(found) == Descendants(edges, parent)
    {
      hide DepthBounded, Descendants;
      found := ChildRows(edges, parent);
      ChildrenFoundFirst(edges, parent, found);
      var i := 0;
      while i < |found|
        invariant 0 <= i <= |found| && FoundSoFar(edges, parent, found, i)
        decreases |edges| - i
      {
        DistinctWithin(found, edges.Keys) by { FoundAreEdges(edges, parent, found, i); }
        var children := ChildRows(edges, found[i]);
        NotBelowItself(View(), parent);
        FoundGrows(edges, parent, found, i, children);
        found := found + children;
        i := i + 1;
      }
      FoundAll(edges, parent, found);
    }

    /** Fence and end every live job below a parent that ends. */
    method CancelDescendants(parent: JobId, now: Time)
      requires DepthBounded(frames, edges)
      modifies this`jobs, this`frames
      ensures View() == Spec.CancelDescendants(old(View()), parent, now)
    {
      hide DepthBounded, Descendants, CancelJobs, CancelFrames;
      ghost var jobs0, frames0 := jobs, frames;
      var entries := DescendantRows(parent);
      NothingCancelled(jobs0, frames0, now);
      assert SetOf(entries[..0]) == {};
      for k := 0 to |entries|
        invariant jobs == CancelJobs(jobs0, frames0, SetOf(entries[..k]), now)
        invariant frames == CancelFrames(frames0, jobs0.Keys, SetOf(entries[..k]))
      {
        var id := entries[k];
        CancelOneMore(jobs0, frames0, entries, k, now);
        if id in jobs && id in frames {
          if !jobs[id].status.Terminal() {
            jobs := jobs[id := CancelledJob(jobs[id], Other("parent_terminal"), now)];
          }
          if !frames[id].state.FrameEnded? {
            frames := frames[id := frames[id].(state := FrameEnded(Outcome(EndedAs(Cancelled), [], None)))];
          }
        }
      }
      assert entries[..|entries|] == entries;
    }

    /** Write an ended record and end everything below it. */
    method EndTree(id: JobId, ended: Job, outcome: Outcome, now: Time)
      requires DepthBounded(frames, edges)
      modifies this`jobs, this`frames
      ensures View() == Spec.EndTree(old(View()), id, ended, outcome, now)
    {
      hide DepthBounded, Spec.CancelDescendants;
      ghost var s := View();
      jobs := jobs[id := ended];
      if id in frames {
        ghost var s1 := View();
        assert s1 == s.(jobs := s.jobs[id := ended]);
        CancelDescendants(id, now);
        frames := Spec.EndFrame(frames, id, outcome, now);
        assert View() == Spec.CancelDescendants(s1, id, now).(frames := frames);
      }
    }

    /** Keep the fifty newest answers: sort the answered entries and delete the rest. */
    method TrimIndex()
      requires IndexMatchesJobs(jobs, index)
      modifies this`index
      ensures View() == Spec.TrimIndex(old(View()))
    {
      hide IndexMatchesJobs, CacheEligible, NewestFirst, IndexFaithful, Spec.TrimIndex, Beyond;
      ghost var s := View();
      AnswersFaithful(s);
      var answered := AnswersNewestFirst(View());
      TrimmedIsSuffix(s, answered);
      TrimRows(s);
      var extra := Beyond(answered);
      for k := 0 to |extra|
        invariant index == s.index - SetOf(extra[..k])
      {
        assert extra[..k + 1] == extra[..k] + [extra[k]];
        index := index - {extra[k]};
      }
      assert extra[..|extra|] == extra;
    }

    // ----- a running worker ------------------------------------------------------

    method Heartbeat(id: JobId, attempt: int, now: Time)
      requires Valid()
      modifies this`slots, this`jobs
      ensures Valid() && View() == Spec.Heartbeat(cfg, old(View()), id, attempt, now)
      ensures BrokerReference.StepIs(cfg, old(View()), Beaten(id, attempt, now), View())
    {
      hide BrokerReference.StepIs, Inv;
      assert Valid();
      ghost var s := View();
      var lease := now + cfg.leaseSeconds;
      if id in slots && slots[id].attempt == attempt {
        slots := slots[id := slots[id].(lease := lease)];
      }
      if id in jobs && jobs[id].attempt == attempt && jobs[id].status.Running? {
        jobs := jobs[id := jobs[id].(lease := lease)];
      }
      assert View() == Spec.Heartbeat(cfg, s, id, attempt, now);
      hide Spec.Heartbeat;
      HeartbeatStaysValid(cfg, s, id, attempt, now);
    }

    method Observe(id: JobId, attempt: int, text: string, now: Time, alive: set<Process>, fits: bool)
      returns (packet: Option<PacketId>)
      requires Valid()
      modifies this`jobs, this`outbox
      ensures Valid() && (View(), packet) == Spec.Observe(cfg, old(View()), id, attempt, text, now, alive, fits)
      ensures BrokerReference.StepIs(cfg, old(View()), Observed(id, attempt, text, now, alive, fits), View())
    {
      hide BrokerReference.StepIs, Inv;
      assert Valid();
      ghost var s := View();
      var running := Running(id, attempt, now, alive);
      packet := None;
      if running && fits {
        var ident := |outbox|;
        var job := jobs[id];
        outbox := outbox + [Row(id, [])];
        job := job.(evidence := job.evidence + [ident],
          observations := job.observations + [Observation(ident, Tool(text), None)]);
        jobs := jobs[id := job.(updated := now, lease := now + cfg.leaseSeconds)];
        packet := Some(ident);
      }
      assert (View(), packet) == Spec.Observe(cfg, s, id, attempt, text, now, alive, fits);
      hide Spec.Observe;
      ObserveStaysValid(cfg, s, id, attempt, text, now, alive, fits);
    }

    /** Validate a checkpoint's frames one by one against the raw log, in order. */
    method CheckFrames(job: Job, frames: seq<Observation>) returns (accepted: bool)
      requires EvidenceListed(job)
      ensures accepted == CheckpointAccepted(cfg, job, frames)
    {
      hide CheckpointAccepted, FrameChecked, EvidenceListed, CheckedSoFar, Previous;
      CheckedMeansAccepted(cfg, job, frames);
      CheckedNothing(cfg, job, frames);
      if |frames| > CHECKPOINT_MAX_OBSERVATIONS {
        return false;
      }
      var previous: int := -1;
      for i := 0 to |frames|
        invariant CheckedSoFar(cfg, job, frames, i)
        invariant previous == Previous(job, frames, i)
      {
        CheckedOneMore(cfg, job, frames, i);
        if !FrameChecked(cfg, job, frames[i], previous) {
          return false;
        }
        previous := Position(job.observations, frames[i].id);
      }
      accepted := cfg.checkpointBytes(frames) <= CHECKPOINT_MAX_BYTES;
    }

    method Checkpoint(id: JobId, attempt: int, frames: seq<Observation>, scope: Option<Scope>, now: Time,
                      alive: set<Process>, fits: bool) returns (accepted: bool)
      requires Valid()
      modifies this`jobs, this`checkpoints
      ensures Valid()
      ensures (View(), accepted) == Spec.WriteCheckpoint(cfg, old(View()), id, attempt, frames, scope, now, alive, fits)
      ensures BrokerReference.StepIs(cfg, old(View()), Checkpointed(id, attempt, frames, scope, now, alive, fits),
        View())
    {
      hide BrokerReference.StepIs, Inv, CheckpointAccepted;
      assert Valid();
      ghost var s := View();
      accepted := Running(id, attempt, now, alive);
      if accepted {
        JobLogsMatch(cfg, s, id);
        var valid := CheckFrames(jobs[id], frames);
        accepted := (scope.None? || scope.value == jobs[id].scope) && valid && fits;
        if accepted {
          checkpoints := checkpoints[id := BrokerModel.Checkpoint(jobs[id].scope, attempt, frames)];
          jobs := jobs[id := jobs[id].(lease := now + cfg.leaseSeconds, updated := now)];
        }
      }
      assert (View(), accepted) == Spec.WriteCheckpoint(cfg, s, id, attempt, frames, scope, now, alive, fits);
      hide Spec.WriteCheckpoint;
      CheckpointStaysValid(cfg, s, id, attempt, frames, scope, now, alive, fits);
    }

    method PrivateWait(id: JobId, attempt: int, child: JobId, now: Time, alive: set<Process>, room: bool)
      returns (accepted: bool)
      requires Valid() && child !in jobs
      modifies this`jobs, this`frames, this`edges, this`waits
      ensures Valid() && (View(), accepted) == Spec.PrivateWait(old(View()), id, attempt, child, now, alive, room)
      ensures BrokerReference.StepIs(cfg, old(View()), Waited(id, attempt, child, now, alive, room), View())
    {
      hide BrokerReference.StepIs, Inv, MayWait, Spec.RegisterChild;
      assert Valid();
      ghost var s := View();
      accepted := Running(id, attempt, now, alive);
      accepted := accepted && MayWait(View(), id, now, room);
      if accepted {
        assert jobs[id].deadline.Some? by { WaitHasDeadline(s, id, now, room); }
        RegisterChild(id, child, now);
      }
      assert (View(), accepted) == Spec.PrivateWait(s, id, attempt, child, now, alive, room);
      hide Spec.PrivateWait;
      PrivateWaitStaysValid(cfg, s, id, attempt, child, now, alive, room);
    }

    method RegisterChild(id: JobId, child: JobId, now: Time)
      requires id in jobs && jobs[id].deadline.Some? && child !in jobs
      modifies this`jobs, this`frames, this`edges, this`waits
      ensures View() == Spec.RegisterChild(old(View()), id, child, now)
    {
      hide NewJob, ParentFrame, WaitCount;
      var job, deadline := jobs[id], jobs[id].deadline.value;
      var parent, generation := ParentFrame(View(), id), WaitCount(View(), id) + 1;
      var automatic := if parent.root in frames then frames[parent.root].automatic else parent.automatic;
      jobs := jobs[child := NewJob(job.scope, [], deadline, None, now)];
      frames := frames[child := Frame(parent.root, Some(id), 0, parent.depth + 1, deadline, 0, automatic, FrameQueued)];
      frames := frames[id := parent.(generation := generation, state := FrameWaiting)];
      edges := edges[child := Edge(id, generation, parent.depth + 1)];
      waits := waits[id := (if id in waits then waits[id] else []) + [Wait(child, WaitOpen, false, false, false)]];
      jobs := jobs[id := job.(status := Yielding, updated := now, lease := 0.0, available := now)];
    }

    // ----- admission -------------------------------------------------------------

    method Submit(r: Request, now: Time) returns (reply: Reply)
      requires Valid() && r.id !in jobs
      modifies this`jobs, this`frames, this`index
      ensures Valid() && (View(), reply) == Spec.Submit(cfg, old(View()), r, now)
      ensures BrokerReference.StepIs(cfg, old(View()), Submitted(r, now), View())
    {
      hide BrokerReference.StepIs, Inv, PublicLoad, Dedup;
      assert Valid();
      ghost var s := View();
      var prior := Indexed(View(), r.identity);
      var served := if prior.Some? then CacheReply(View(), r, prior.value) else None;
      if served.Some? {
        reply := served.value;
      } else if !r.dispatching || !r.skillKnown || !r.hintsResolve {
        reply := Refused;
      } else if |PublicLoad(View())| >= Min(PUBLIC_ADMISSION_LIMIT, cfg.hardLimit) || !r.fitsStorage {
        reply := Refused;
      } else {
        var hints := Dedup(r.hints);
        if prior.Some? {
          hints := Dedup(jobs[prior.value].hints + hints);
        }
        var deadline := now + 300.0;
        jobs := jobs[r.id := NewJob(r.scope, hints, deadline, r.identity, now)];
        frames := frames[r.id := RootFrame(r.id, deadline, false)];
        if r.identity.Some? {
          index := index[r.identity.value := r.id];
        }
        reply := Admitted(r.id);
      }
      assert (View(), reply) == Spec.Submit(cfg, s, r, now);
      hide Spec.Submit;
      SubmitStaysValid(cfg, s, r, now);
    }

    /** Cancel superseded preparations first; a storage refusal afterwards does not undo it. */
    method Prepare(id: JobId, scope: Scope, work: Identity, deadline: Time, now: Time, permitted: bool, fits: bool)
      returns (reply: Reply, stale: seq<JobId>)
      requires Valid() && id !in jobs
      modifies this`jobs, this`frames, this`preparations
      ensures Valid() && View() == Spec.Prepare(old(View()), id, scope, work, deadline, now, permitted, fits, stale).0
      ensures var told := Spec.Prepare(old(View()), id, scope, work, deadline, now, permitted, fits, stale).1;
        if reply.Existing? then told.Existing? && reply.job in old(preparations)
           && old(preparations)[reply.job] == work else reply == told
      ensures forall x :: x in stale <==> StalePreparation(old(View()), x, work)
      ensures BrokerReference.StepIs(cfg, old(View()),
        Prepared(id, scope, work, deadline, now, permitted, fits, stale), View())
    {
      hide BrokerReference.StepIs, Inv, Spec.EndTree, StalePreparation, TreeInv;
      assert Valid();
      ghost var s := View();
      TreeOf(cfg, s);
      stale := StaleRows(View(), work);
      if deadline <= now || !permitted {
        reply := Refused;
      } else if j :| j in preparations && preparations[j] == work {
        reply := Existing(j);
      } else {
        CancelRows(stale, Other("preparation_source_changed"), now);
        if !fits {
          reply := Refused;
        } else {
          jobs := jobs[id := NewJob(scope, [], deadline, None, now)];
          frames := frames[id := RootFrame(id, deadline, true)];
          preparations := preparations[id := work];
          reply := Admitted(id);
        }
      }
      assert View() == Spec.Prepare(s, id, scope, work, deadline, now, permitted, fits, stale).0;
      assert reply.Existing? || reply == Spec.Prepare(s, id, scope, work, deadline, now, permitted, fits, stale).1;
      hide Spec.Prepare;
      PrepareStaysValid(cfg, s, id, scope, work, deadline, now, permitted, fits, stale);
    }

    method CancelRows(rows: seq<JobId>, reason: Reason, now: Time)
      requires TreeInv(View())
      modifies this`jobs, this`frames
      ensures View() == CancelAll(old(View()), rows, reason, now)
    {
      hide TreeInv, Spec.EndTree;
      ghost var s := View();
      for k := 0 to |rows|
        invariant TreeInv(View())
        invariant CancelAll(View(), rows[k..], reason, now) == CancelAll(s, rows, reason, now)
      {
        var id := rows[k];
        assert rows[k..][1..] == rows[k + 1..];
        if id in jobs && !jobs[id].status.Terminal() {
          TreeDepth(View());
          CancelOneStaysTree(View(), id, reason, now);
          EndTree(id, CancelledJob(jobs[id], reason, now), Outcome(EndedAs(Cancelled), [], None), now);
        }
      }
    }

    // ----- claiming --------------------------------------------------------------

    /** Drop expired slots, except failed ones and those whose owner is alive. */
    method ReclaimSlots(d: Dispatch)
      modifies this`slots
      ensures View() == Reclaim(old(View()), d)
    {
      hide Reclaimable, OwnerAlive;
      ghost var slots0 := slots;
      var held := JobList(slots.Keys);
      NothingReclaimed(slots0, d);
      for k := 0 to |held|
        invariant slots == ReclaimAmong(slots0, held[..k], d)
      {
        ReclaimOneMore(slots0, held, k, d);
        if Reclaimable(slots[held[k]], d) {
          slots := slots - {held[k]};
        }
      }
      AllReclaimed(View(), slots0, held, d);
    }

    /** Make a complete wait's wake durable. */
    method MarkReady(p: JobId, g: int)
      modifies this`waits
      ensures View() == Spec.MarkReady(old(View()), p, g)
    {
      if p in waits && 1 <= g <= |waits[p]| {
        var w := waits[p][g - 1];
        if !w.state.WaitRetired? && !w.consumed && w.child in frames && frames[w.child].state.FrameEnded? {
          waits := waits[p := waits[p][g - 1 := w.(state := WaitReady)]];
        }
      }
    }

    method RequeueJob(id: JobId, now: Time)
      requires id in jobs
      modifies this`jobs, this`waits
      ensures View() == Requeue(old(View()), id, now)
    {
      hide Spec.MarkReady, ReadyToResume;
      ghost var s := View();
      if ReadyToResume(View(), id) {
        MarkReady(id, WaitCount(View(), id));
        MarkReadyShape(s, id, WaitCount(s, id));
        jobs := jobs[id := jobs[id].(status := QueuedAfterEviction, available := now, updated := now)];
      }
    }

    method RetireJob(id: JobId, now: Time)
      requires id in jobs && IndexMatchesJobs(jobs, index)
      modifies this`jobs, this`index
      ensures View() == Retire(old(View()), id, now)
    {
      hide Spec.TrimIndex, IndexMatchesJobs, RetiredJob;
      ghost var s := View();
      RetiredRowFacts(jobs[id], now);
      jobs := jobs[id := RetiredJob(jobs[id], now)];
      ghost var t := View();
      RowKeepsIndexed(s, t, id);
      TrimIndex();
    }

    method StartJob(id: JobId, d: Dispatch)
      requires id in jobs
      modifies this`jobs, this`frames, this`slots, this`workers
      ensures View() == Start(cfg, old(View()), id, d)
    {
      var attempt := jobs[id].attempt + 1;
      jobs := jobs[id := jobs[id].(attempt := attempt, status := Status.Running, lease := d.now + cfg.leaseSeconds,
        updated := d.now)];
      if id in frames {
        frames := frames[id := frames[id].(state := FrameRunning)];
      }
      slots := slots[id := Slot(attempt, d.now + cfg.leaseSeconds, d.owner, false)];
      workers := workers + {(id, attempt)};
    }

    /** One row of the scan: gate by gate, and started if it passes them all. */
    method ScanJob(id: JobId, d: Dispatch) returns (began: bool)
      requires id in jobs && IndexMatchesJobs(jobs, index)
      modifies this`jobs, this`frames, this`slots, this`waits, this`workers, this`index
      ensures (View(), began) == ScanRow(cfg, old(View()), id, d)
    {
      hide FrameGate, DispatchGate, Exhausted, IndexMatchesJobs, Requeue, Retire, Start;
      ghost var s := View();
      if jobs[id].status.Terminal() || !FrameGate(View(), id, d.now) {
        return false;
      }
      var passes, exhausted := DispatchGate(View(), id, d), Exhausted(View(), id, d.now);
      var available, occupied := jobs[id].available, |slots|;
      RequeueShape(s, id, d.now);
      RequeueJob(id, d.now);
      RowKeepsIndexed(s, View(), id) by { RequeueKeepsIdentity(s, id, d.now); }
      if !passes {
        return false;
      }
      if exhausted {
        RetireJob(id, d.now);
        return false;
      }
      if available > d.now || occupied >= EXECUTION_SLOT_CAPACITY {
        return false;
      }
      StartJob(id, d);
      return true;
    }

    method Claim(d: Dispatch) returns (started: Option<JobId>, rows: seq<JobId>)
      requires Valid()
      modifies this`jobs, this`frames, this`slots, this`waits, this`workers, this`index
      ensures Valid() && DispatchOrder(old(View()), rows)
      ensures (View(), started) == Spec.Claim(cfg, old(View()), rows, d)
      ensures BrokerReference.StepIs(cfg, old(View()), Claimed(rows, d), View())
    {
      hide BrokerReference.StepIs, Inv, DispatchOrder, Scan, ScanRow, Reclaim, TreeInv, Core;
      assert Valid();
      ghost var s := View();
      TreeOf(cfg, s);
      rows := DispatchRows(View());
      ReclaimSlots(d);
      ghost var s0 := View();
      ReclaimedParts(cfg, s, d);
      started := None;
      var k := 0;
      while k < |rows| && started.None?
        invariant 0 <= k <= |rows| && TreeInv(View()) && Core(cfg, View())
        invariant Spec.Scan(cfg, s0, rows, d) == if started.None? then Spec.Scan(cfg, View(), rows[k..], d)
          else (View(), started)
      {
        ghost var t := View();
        ScanUnfolds(cfg, t, rows, k, d);
        if rows[k] in jobs {
          ScanRowParts(cfg, t, rows[k], d);
          IndexOfCore(cfg, t);
          var began := ScanJob(rows[k], d);
          if began {
            started := Some(rows[k]);
          }
        }
        k := k + 1;
      }
      ScanEnds(cfg, View(), d);
      assert rows[|rows|..] == [];
      assert (View(), started) == Spec.Claim(cfg, s, rows, d);
      hide Spec.Claim;
      ClaimStaysValid(cfg, s, rows, d);
    }

    // ----- finishing -------------------------------------------------------------

    /** Commit one attempt's report, or leave the store untouched. */
    method Finish(id: JobId, attempt: int, report: Report, now: Time, late: Time, alive: set<Process>, fits: bool)
      returns (accepted: bool)
      requires Valid()
      modifies this`jobs, this`frames, this`waits, this`outbox, this`index
      ensures Valid()
      ensures (View(), accepted) == Spec.Finish(cfg, old(View()), id, attempt, report, now, late, alive, fits)
      ensures BrokerReference.StepIs(cfg, old(View()), Finished(id, attempt, report, now, late, alive, fits), View())
    {
      hide BrokerReference.StepIs, Inv, Normalised, FinishCommits, Forced, FinalStatus, CommitReport, FinishPrologue;
      assert Valid();
      ghost var s := View();
      var r := Normalised(report);
      accepted := Running(id, attempt, now, alive);
      accepted := accepted && FinishCommits(View(), id, r, now, fits);
      if accepted {
        var f := Forced(View(), id, r, now);
        var status := FinalStatus(jobs[id], f);
        FinishParts(cfg, s, id, r, now, fits);
        RecordFailure(id, r);
        WriteReport(id, f, status, r.consumed.Some?, late);
      }
      assert (View(), accepted) == Spec.Finish(cfg, s, id, attempt, report, now, late, alive, fits);
      hide Spec.Finish;
      FinishStaysValid(cfg, s, id, attempt, report, now, late, alive, fits);
    }

    /** Count a failed attempt, and make a ready child result durable. */
    method RecordFailure(id: JobId, r: Report)
      modifies this`frames, this`waits
      ensures View() == FinishPrologue(old(View()), id, r)
    {
      hide Spec.MarkReady, CooperativeYield;
      ghost var s := View();
      if id in frames && r.status.Yielding? && !CooperativeYield(r) {
        frames := frames[id := frames[id].(failures := frames[id].failures + 1)];
      }
      assert View() == CountFailure(s, id, r);
      hide CountFailure;
      if id in frames {
        MarkReady(id, WaitCount(View(), id));
      }
    }

    /** Write the report's row, its result packet and the end of its tree. */
    method WriteReport(id: JobId, f: Report, status: Status, acknowledged: bool, late: Time)
      requires id in jobs && Core(cfg, View()) && TreeInv(View()) && GoodReport(jobs[id], f, status)
      modifies this`jobs, this`frames, this`waits, this`outbox, this`index
      ensures View() == CommitReport(cfg, old(View()), id, f, status, acknowledged, late)
    {
      hide Core, TreeInv, GoodReport, FinishedJob, Spec.TrimIndex, Spec.EndTree, EndingOf, IndexMatchesJobs,
        Acknowledge, CommitReport, DepthBounded;
      CommitIndexed(cfg, View(), id, f, status, acknowledged, late);
      CommitIs(cfg, View(), id, f, status, acknowledged, late);
      TreeDepth(View());
      var job := FinishedJob(cfg, jobs[id], f, status, late);
      var ended := job.(result := Some(|outbox|));
      if !status.Terminal() {
        WriteYield(id, job);
      } else if acknowledged {
        WriteAcknowledged(id, ended);
      } else {
        WriteEnd(id, ended, Outcome(EndingOf(status, f.reason), ended.evidence, ended.result), late);
      }
    }

    method WriteYield(id: JobId, job: Job)
      requires IndexMatchesJobs(jobs[id := job], index)
      modifies this`jobs, this`index
      ensures View() == Spec.TrimIndex(old(View()).(jobs := old(jobs)[id := job]))
    {
      hide Spec.TrimIndex, IndexMatchesJobs;
      jobs := jobs[id := job];
      TrimIndex();
    }

    method WriteAcknowledged(id: JobId, ended: Job)
      requires IndexMatchesJobs(jobs[id := ended], index)
      modifies this`jobs, this`waits, this`outbox, this`index
      ensures View() == Spec.TrimIndex(Acknowledge(old(View()).(outbox := old(outbox) + [Row(id, [])],
        jobs := old(jobs)[id := ended]), id))
    {
      hide Spec.TrimIndex, IndexMatchesJobs, Acknowledge;
      outbox := outbox + [Row(id, [])];
      jobs := jobs[id := ended];
      AcknowledgeRows(View(), id);
      AcknowledgeWake(id);
      TrimIndex();
    }

    method WriteEnd(id: JobId, ended: Job, outcome: Outcome, late: Time)
      requires DepthBounded(frames, edges)
      requires var t := Spec.EndTree(View().(outbox := outbox + [Row(id, [])]), id, ended, outcome, late);
        IndexMatchesJobs(t.jobs, t.index)
      modifies this`jobs, this`frames, this`outbox, this`index
      ensures View() == Spec.TrimIndex(Spec.EndTree(old(View()).(outbox := old(outbox) + [Row(id, [])]), id, ended,
        outcome, late))
    {
      hide Spec.TrimIndex, IndexMatchesJobs, Spec.EndTree, DepthBounded;
      outbox := outbox + [Row(id, [])];
      EndTree(id, ended, outcome, late);
      TrimIndex();
    }

    method AcknowledgeWake(id: JobId)
      modifies this`waits
      ensures View() == Acknowledge(old(View()), id)
    {
      if id in waits && |waits[id]| > 0 {
        var g := |waits[id]|;
        waits := waits[id := waits[id][g - 1 := waits[id][g - 1].(acked := true)]];
      }
    }

    // ----- ending from outside ---------------------------------------------------

    method Cancel(id: JobId, scope: Scope, now: Time) returns (cancelled: bool)
      requires Valid()
      modifies this`jobs, this`frames, this`index
      ensures Valid() && (View(), cancelled) == Spec.Cancel(old(View()), id, scope, now)
      ensures BrokerReference.StepIs(cfg, old(View()), CancelledBy(id, scope, now), View())
    {
      hide BrokerReference.StepIs, Inv, Spec.EndTree, Spec.TrimIndex, IndexMatchesJobs, CancelledJob;
      assert Valid();
      ghost var s := View();
      cancelled := !IsPrivate(View(), id) && id in jobs && !jobs[id].status.Terminal() && jobs[id].scope == scope;
      if cancelled {
        CancelIndexed(cfg, s, id, now);
        EndTree(id, CancelledJob(jobs[id], jobs[id].reason, now), Outcome(EndedAs(Cancelled), [], None), now);
        TrimIndex();
      }
      assert (View(), cancelled) == Spec.Cancel(s, id, scope, now);
      hide Spec.Cancel;
      CancelStaysValid(cfg, s, id, scope, now);
    }

    method CancelPreparation(id: JobId, scope: Scope, now: Time) returns (cancelled: bool)
      requires Valid()
      modifies this`jobs, this`frames
      ensures Valid() && (View(), cancelled) == Spec.CancelPreparation(old(View()), id, scope, now)
      ensures BrokerReference.StepIs(cfg, old(View()), PreparationCancelled(id, scope, now), View())
    {
      hide BrokerReference.StepIs, Inv, Spec.EndTree, CancelledJob;
      assert Valid();
      ghost var s := View();
      cancelled := id in preparations && id in jobs && !jobs[id].status.Terminal() && jobs[id].scope == scope;
      if cancelled {
        CancelIndexed(cfg, s, id, now);
        EndTree(id, CancelledJob(jobs[id], Other("operator_cancelled"), now), Outcome(EndedAs(Cancelled), [], None),
          now);
      }
      assert (View(), cancelled) == Spec.CancelPreparation(s, id, scope, now);
      hide Spec.CancelPreparation;
      CancelStaysValid(cfg, s, id, scope, now);
    }

    /** End every job whose deadline passed, with the records fetched before the loop. */
    method ExpireDeadlines(now: Time) returns (rows: seq<(JobId, Job)>)
      requires Valid()
      modifies this`jobs, this`frames, this`index
      ensures Valid() && DueRows(old(View()), rows, now) && View() == ExpireAll(old(View()), rows, now)
      ensures BrokerReference.StepIs(cfg, old(View()), ExpiredAt(rows, now), View())
    {
      hide BrokerReference.StepIs, Inv, DueRows, ExpireAll, ExpireOne, Expiring, Fetched, Spec.EndTree, Spec.TrimIndex,
        TreeInv,
        IndexMatchesJobs, ExpiredJob;
      assert Valid();
      ghost var s := View();
      TreeOf(cfg, s);
      rows := DueList(View(), now);
      DueRowsFetched(s, rows, now);
      assert rows[0..] == rows;
      for k := 0 to |rows|
        invariant TreeInv(View()) && Expiring(s, View(), rows[k..]) && Fetched(s, frames.Keys, rows[k..])
        invariant ExpireAll(View(), rows[k..], now) == ExpireAll(s, rows, now)
      {
        ghost var t := View();
        assert rows[k..][1..] == rows[k + 1..] && rows[k..][0] == rows[k];
        ExpireRowParts(cfg, s, t, rows[k..], now);
        EndTree(rows[k].0, ExpiredJob(rows[k].1, now), Outcome(Expired, rows[k].1.evidence, None), now);
        TrimIndex();
        assert View() == ExpireOne(t, rows[k].0, rows[k].1, now) by { ExpireOneIs(t, rows[k].0, rows[k].1, now); }
      }
      assert rows[|rows|..] == [];
      ExpireEnds(View(), now);
      ExpireStaysValid(cfg, s, rows, now);
    }

    // ----- waking and settling ---------------------------------------------------

    method WakeParent(p: JobId, g: int, now: Time)
      modifies this`jobs, this`waits, this`outbox, this`childPackets
      ensures View() == WakeOne(old(View()), p, g, now)
    {
      hide Spec.MarkReady, OutcomeReady, Spec.AppendChildResult;
      ghost var s := View();
      if !OutcomeReady(View(), p, g) {
        return;
      }
      assert HasWait(s, p, g) by { ReadyHasWait(s, p, g); }
      var w := waits[p][g - 1];
      MarkReady(p, g);
      MarkReadyShape(s, p, g);
      if p in jobs && !jobs[p].status.Terminal() {
        if !w.consumed {
          AppendChildResult(p, g, w.child);
        }
        jobs := jobs[p := jobs[p].(status := QueuedAfterEviction, updated := now, available := now)];
      }
    }

    method AppendChildResult(p: JobId, g: int, child: JobId)
      requires p in jobs
      modifies this`jobs, this`outbox, this`childPackets
      ensures View() == Spec.AppendChildResult(old(View()), p, g, child)
      ensures p in jobs
    {
      hide ChildRefs;
      if child in frames && frames[child].state.FrameEnded? && ChildKey(p, g, child) !in childPackets {
        var o := frames[child].state.outcome;
        var parent := jobs[p];
        var refs := ChildRefs(o);
        var ident := |outbox|;
        var payload := ChildResult(child, |parent.observations| + 1, o.ending, refs);
        outbox := outbox + [Row(p, refs)];
        parent := parent.(evidence := parent.evidence + [ident],
          observations := parent.observations + [Observation(ident, payload, None)]);
        childPackets := childPackets[ChildKey(p, g, child) := ident];
        jobs := jobs[p := parent];
      }
    }

    method WakeReadyParents(now: Time, fits: bool) returns (rows: seq<(JobId, int)>)
      requires Valid()
      modifies this`jobs, this`waits, this`outbox, this`childPackets
      ensures Valid() && View() == Wake(old(View()), rows, now, fits)
      ensures forall w :: w in rows <==>
        HasWait(old(View()), w.0, w.1) && !WaitAt(old(View()), w.0, w.1).state.WaitRetired?
      ensures fits ==> forall p, g :: Deliverable(old(View()), p, g) ==> ResultKey(old(View()), p, g) in childPackets
      ensures fits ==> forall p :: BrokerWakeEffects.ParentAfter(old(View()), View(), p, true, now)
      ensures BrokerReference.StepIs(cfg, old(View()), Woken(rows, now, fits), View())
    {
      hide BrokerReference.StepIs, Inv, WakeOne, Deliverable, BrokerWakeEffects.ParentAfter;
      assert Valid();
      ghost var s := View();
      rows := WaitRows(View(), (p, w: Wait) => !w.state.WaitRetired?);
      if fits {
        assert rows[0..] == rows;
        for k := 0 to |rows|
          invariant WakeAll(View(), rows[k..], now) == WakeAll(s, rows, now)
        {
          assert rows[k..][1..] == rows[k + 1..];
          WakeParent(rows[k].0, rows[k].1, now);
        }
      }
      assert View() == Wake(s, rows, now, fits);
      hide Wake;
      DeliverablesListed(s, rows);
      WakeFiles(s, rows, now);
      WakeIsComplete(cfg, s, rows, now);
      WakeStaysValid(cfg, s, rows, now, fits);
    }

    /** Hand over one acknowledged wake once neither side holds a slot. */
    method ConsumeWake(p: JobId, g: int, now: Time)
      modifies this`frames, this`waits
      ensures View() == ConsumeOne(old(View()), p, g, now)
    {
      hide Spec.MarkReady, OutcomeReady, Spec.EndFrame, EndingOf;
      if p in slots {
        return;
      }
      ghost var s := View();
      MarkReady(p, g);
      MarkReadyShape(s, p, g);
      if ConsumeReady(View(), p, g) {
        ghost var s1 := View();
        var w := waits[p][g - 1];
        waits := waits[p := waits[p][g - 1 := w.(consumed := true, acked := false)]];
        ghost var s2 := View();
        if !frames[p].state.FrameEnded? {
          frames := frames[p := frames[p].(state := FrameRunning)];
        }
        assert View() == ResumeFrame(s2, p);
        frames := frames - {w.child};
        ghost var s3 := View();
        if p in jobs && jobs[p].status.Terminal() {
          frames := Spec.EndFrame(frames, p,
            Outcome(EndingOf(jobs[p].status, jobs[p].reason), jobs[p].evidence, jobs[p].result), now);
        }
        assert View() == EndOwnFrame(s3, p, now);
      }
    }

    method RetireWait(p: JobId, g: int)
      modifies this`frames, this`waits
      ensures View() == RetireOne(old(View()), p, g)
    {
      if RetireReady(View(), p, g) {
        var w := waits[p][g - 1];
        waits := waits[p := waits[p][g - 1 := w.(state := WaitRetired, consumed := true, acked := false)]];
        frames := frames - {w.child};
      }
    }

    method ConsumePendingAcks(now: Time) returns (acked: seq<(JobId, int)>, unread: seq<(JobId, int)>)
      requires Valid()
      modifies this`frames, this`waits
      ensures Valid() && View() == SettleWaits(old(View()), acked, unread, now)
      ensures forall w :: w in acked <==> HasWait(old(View()), w.0, w.1) && WaitAt(old(View()), w.0, w.1).acked
      ensures var handed := ConsumeAll(old(View()), acked, now);
        forall w :: w in unread <==>
          && HasWait(handed, w.0, w.1) && w.0 in handed.jobs && handed.jobs[w.0].status.Terminal()
          && !WaitAt(handed, w.0, w.1).acked && !WaitAt(handed, w.0, w.1).state.WaitRetired?
      ensures BrokerReference.StepIs(cfg, old(View()), Settled(acked, unread, now), View())
    {
      hide BrokerReference.StepIs, Inv, ConsumeOne, RetireOne;
      assert Valid();
      ghost var s := View();
      acked := WaitRows(View(), (p, w: Wait) => w.acked);
      assert acked[0..] == acked;
      for k := 0 to |acked|
        invariant ConsumeAll(View(), acked[k..], now) == ConsumeAll(s, acked, now)
      {
        assert acked[k..][1..] == acked[k + 1..];
        ConsumeWake(acked[k].0, acked[k].1, now);
      }
      ghost var s1 := View();
      assert s1 == ConsumeAll(s, acked, now);
      var rows := jobs;
      unread := WaitRows(View(), (p, w: Wait) => !w.acked && p in rows && rows[p].status.Terminal()
        && !w.state.WaitRetired?);
      assert unread[0..] == unread;
      for k := 0 to |unread|
        invariant RetireAll(View(), unread[k..]) == RetireAll(s1, unread)
      {
        assert unread[k..][1..] == unread[k + 1..];
        RetireWait(unread[k].0, unread[k].1);
      }
      assert View() == SettleWaits(s, acked, unread, now);
      hide SettleWaits;
      SettleStaysValid(cfg, s, acked, unread, now);
    }

    // ----- slots and repair ------------------------------------------------------

    /** The end of one execution: free its slot and arm a waiting frame's child, or keep the
        slot because closing the session could not be proved. */
    method Cleanup(id: JobId, attempt: int, failed: bool)
      requires Valid()
      modifies this`slots, this`workers, this`frames, this`waits
      ensures Valid() && View() == Spec.Cleanup(old(View()), id, attempt, failed)
      ensures BrokerReference.StepIs(cfg, old(View()), CleanedUp(id, attempt, failed), View())
    {
      hide BrokerReference.StepIs, Inv, ReleaseParent;
      assert Valid();
      ghost var s := View();
      if (id, attempt) in workers {
        workers := workers - {(id, attempt)};
        if failed {
          if id in slots && slots[id].attempt == attempt {
            slots := slots[id := slots[id].(cleanupFailed := true)];
          }
        } else {
          if id in slots && slots[id].attempt == attempt {
            slots := slots - {id};
          }
          assert View() == FreeSlot(s, id, attempt);
          ArmChild(id);
        }
      }
      assert View() == Spec.Cleanup(s, id, attempt, failed);
      hide Spec.Cleanup;
      CleanupStaysValid(cfg, s, id, attempt, failed);
    }

    method ArmChild(p: JobId)
      modifies this`frames, this`waits
      ensures View() == ReleaseParent(old(View()), p)
    {
      if ReleasesParent(View(), p) {
        var g := |waits[p]|;
        waits := waits[p := waits[p][g - 1 := waits[p][g - 1].(released := true)]];
        frames := frames[p := frames[p].(state := FrameSuspended)];
      }
    }

    method ReconcileStaleSlot(id: JobId, attempt: int, owner: Process, alive: set<Process>, proved: bool)
      returns (removed: bool)
      requires Valid()
      modifies this`slots
      ensures Valid() && (View(), removed) == Spec.ReconcileStaleSlot(old(View()), id, attempt, owner, alive, proved)
      ensures BrokerReference.StepIs(cfg, old(View()), SlotReconciled(id, attempt, owner, alive, proved), View())
    {
      hide BrokerReference.StepIs, Inv;
      assert Valid();
      ghost var s := View();
      removed := proved && id in jobs && jobs[id].status.Terminal() && attempt <= jobs[id].attempt
        && id in slots && slots[id].attempt == attempt && slots[id].owner == Some(owner)
        && slots[id].cleanupFailed && owner !in alive;
      if removed {
        slots := slots - {id};
      }
      assert (View(), removed) == Spec.ReconcileStaleSlot(s, id, attempt, owner, alive, proved);
      hide Spec.ReconcileStaleSlot;
      ReconcileStaysValid(cfg, s, id, attempt, owner, alive, proved);
    }

    method ReleaseFailed(expected: map<JobId, Reason>, delivered: set<JobId>)
      requires Valid()
      modifies this`index
      ensures Valid() && View() == Spec.ReleaseFailed(old(View()), expected, delivered)
      ensures BrokerReference.StepIs(cfg, old(View()), FailuresReleased(expected, delivered), View())
    {
      hide BrokerReference.StepIs, Inv, ReleasesFailure;
      assert Valid();
      ghost var s := View();
      index := map i | i in index && !ReleasesFailure(View(), i, expected, delivered) :: index[i];
      assert View() == Spec.ReleaseFailed(s, expected, delivered);
      hide Spec.ReleaseFailed;
      ReleaseStaysValid(cfg, s, expected, delivered);
    }
  }
}
