/** The inquiry cache over time: what trimming drops, and what refreshing keeps. */
module BrokerCache {
  import opened Prelude
  import opened BrokerModel
  import opened BrokerSteps
  import opened BrokerInvariant
  import opened BrokerTree
  import opened BrokerTreeSteps
  import opened BrokerCalm
  import opened BrokerCalmSteps
  import opened BrokerWrites
  import opened BrokerWriteSteps
  import opened BrokerStarts
  import opened BrokerClaims
  import opened BrokerAnswers
  import opened BrokerRuns
  import opened BrokerSafety

  // ----- trimming ------------------------------------------------------------------

  /** Trimming keeps every live or unanswered entry, drops only answers with fifty newer
      ones kept in their place, and keeps all answers while there are at most fifty. */
  lemma TrimDropsOnlyOldAnswers(s: Store, i: Identity)
    requires IndexFaithful(s) && i in s.index
    ensures !Answered(s, i) ==> i in TrimIndex(s).index
    ensures !s.jobs[s.index[i]].status.Terminal() ==> i in TrimIndex(s).index
    ensures i !in TrimIndex(s).index ==> Answered(s, i) && |NewerAnswers(s, i)| >= INDEX_CAPACITY
    ensures |AnsweredSet(s)| <= INDEX_CAPACITY ==> i in TrimIndex(s).index
  {
    if Answered(s, i) && |NewerAnswers(s, i)| >= INDEX_CAPACITY {
      assert NewerAnswers(s, i) <= AnsweredSet(s) - {i};
      SubsetSize(NewerAnswers(s, i), AnsweredSet(s) - {i});
    }
  }

  /** Kept answers are newer than dropped ones. */
  lemma TrimKeepsNewest(s: Store, kept: Identity, dropped: Identity)
    requires IndexFaithful(s) && kept in s.index && dropped in s.index && Answered(s, kept)
    requires kept in TrimIndex(s).index && dropped !in TrimIndex(s).index
    ensures Answered(s, dropped) && Newer(s, kept, dropped)
  {
    assert s.index[kept] != s.index[dropped];
    if !Newer(s, kept, dropped) {
      assert NewerAnswers(s, dropped) <= NewerAnswers(s, kept) by {
        forall k | k in NewerAnswers(s, dropped)
          ensures k in NewerAnswers(s, kept)
        {
        }
      }
      SubsetSize(NewerAnswers(s, dropped), NewerAnswers(s, kept));
      assert false;
    }
  }

  // ----- refreshing ----------------------------------------------------------------

  lemma RefreshKeepsHints(s: Store, r: Request, prior: JobId, p: PacketId)
    requires Indexed(s, r.identity) == Some(prior) && p in s.jobs[prior].hints
    ensures p in RefreshedHints(s, r)
  {
    assert p in s.jobs[prior].hints + Dedup(r.hints);
  }

  /** The request's own hints are all kept too, each once. */
  lemma RefreshHintsExact(s: Store, r: Request, p: PacketId)
    ensures p in RefreshedHints(s, r) <==>
      p in r.hints || (Indexed(s, r.identity).Some? && p in s.jobs[Indexed(s, r.identity).value].hints)
    ensures Distinct(RefreshedHints(s, r))
  {
  }

  /** An identity's entry is the same job as before, or a submission's new generation. */
  ghost predicate EntryMoves(s: Store, t: Store, e: Event, i: Identity)
    requires i in s.index && i in t.index
  {
    t.index[i] == s.index[i]
    || (e.Submitted? && e.r.identity == Some(i) && e.r.id in t.jobs && t.index[i] == e.r.id
        && t.jobs[e.r.id].hints == RefreshedHints(s, e.r))
  }

  ghost predicate IndexShrinks(a: map<Identity, JobId>, b: map<Identity, JobId>) {
    forall i :: i in b ==> i in a && b[i] == a[i]
  }

  lemma CalmShrinks(s: Store, t: Store)
    requires Calm(s, t)
    ensures IndexShrinks(s.index, t.index)
  {
    hide JobsCalm, FramesCalm, SlotsCalm;
  }

  lemma ScanShrinks(cfg: Config, s: Store, rows: seq<JobId>, d: Dispatch)
    ensures IndexShrinks(s.index, Scan(cfg, s, rows, d).0.index)
    decreases |rows|
  {
    if rows == [] {
    } else if rows[0] !in s.jobs {
      ScanShrinks(cfg, s, rows[1..], d);
    } else {
      ScanRowShrinks(cfg, s, rows[0], d);
      hide ScanRow;
      ScanShrinks(cfg, ScanRow(cfg, s, rows[0], d).0, rows[1..], d);
    }
  }

  lemma ScanRowShrinks(cfg: Config, s: Store, id: JobId, d: Dispatch)
    requires id in s.jobs
    ensures IndexShrinks(s.index, ScanRow(cfg, s, id, d).0.index)
  {
    hide FrameGate, Exhausted, DispatchGate, Requeue, Retire;
    if Live(s, id) {
      RequeueShape(s, id, d.now);
      RetireShrinks(Requeue(s, id, d.now), id, d.now);
    }
  }

  lemma RetireShrinks(s: Store, id: JobId, now: Time)
    requires id in s.jobs
    ensures IndexShrinks(s.index, Retire(s, id, now).index)
  {
  }

  lemma ClaimShrinks(cfg: Config, s: Store, rows: seq<JobId>, d: Dispatch)
    ensures IndexShrinks(s.index, Claim(cfg, s, rows, d).0.index)
  {
    hide Scan, Reclaimable;
    ScanShrinks(cfg, Reclaim(s, d), rows, d);
  }

  lemma SameIndexShrinks(s: Store, t: Store)
    requires t.index == s.index
    ensures IndexShrinks(s.index, t.index)
  {
  }

  lemma WakeAllIndex(s: Store, waits: seq<(JobId, int)>, now: Time)
    ensures WakeAll(s, waits, now).index == s.index
    decreases |waits|
  {
    if waits != [] {
      WakeOneIndex(s, waits[0].0, waits[0].1, now);
      hide WakeOne;
      WakeAllIndex(WakeOne(s, waits[0].0, waits[0].1, now), waits[1..], now);
    }
  }

  lemma WakeOneIndex(s: Store, p: JobId, g: int, now: Time)
    ensures WakeOne(s, p, g, now).index == s.index
  {
    hide MarkReady, OutcomeReady, ChildRefs;
    MarkReadyShape(s, p, g);
  }

  lemma CommitShrinks(cfg: Config, s: Store, id: JobId, f: Report, status: Status, acknowledged: bool, late: Time)
    requires id in s.jobs
    ensures IndexShrinks(s.index, CommitReport(cfg, s, id, f, status, acknowledged, late).index)
  {
    hide FinishedJob, EndTree, EndingOf, Acknowledge, TrimIndex;
    var job := FinishedJob(cfg, s.jobs[id], f, status, late);
    var ended := job.(result := Some(|s.outbox|));
    var s1 := s.(outbox := s.outbox + [Row(id, [])]);
    var outcome := Outcome(EndingOf(status, f.reason), ended.evidence, ended.result);
    EndTreeRows(s1, id, ended, outcome, late);
    AcknowledgeIndex(s1.(jobs := s1.jobs[id := ended]), id);
    TrimShrinks(s.(jobs := s.jobs[id := job]));
    TrimShrinks(EndTree(s1, id, ended, outcome, late));
    TrimShrinks(Acknowledge(s1.(jobs := s1.jobs[id := ended]), id));
  }

  lemma TrimShrinks(s: Store)
    ensures IndexShrinks(s.index, TrimIndex(s).index)
  {
  }

  lemma AcknowledgeIndex(s: Store, id: JobId)
    ensures Acknowledge(s, id).index == s.index
  {
  }

  lemma FinishShrinks(cfg: Config, s: Store, id: JobId, attempt: int, report: Report, now: Time, late: Time,
                      alive: set<Process>, fits: bool)
    ensures IndexShrinks(s.index, Finish(cfg, s, id, attempt, report, now, late, alive, fits).0.index)
  {
    hide Forced, FinalStatus, Normalised, FinishCommits, CommitReport, FinishPrologue, IndexShrinks;
    SameIndexShrinks(s, s);
    var r := Normalised(report);
    if IsRunning(s, id, attempt, now, alive) && FinishCommits(s, id, r, now, fits) {
      var f := Forced(s, id, r, now);
      PrologueShape(s, id, r);
      CommitShrinks(cfg, FinishPrologue(s, id, r), id, f, FinalStatus(s.jobs[id], f), r.consumed.Some?, late);
    }
  }

  lemma PrepareIndex(s: Store, id: JobId, scope: Scope, work: Identity, deadline: Time, now: Time,
                     permitted: bool, fitsStorage: bool, stale: seq<JobId>)
    ensures IndexShrinks(s.index, Prepare(s, id, scope, work, deadline, now, permitted, fitsStorage, stale).0.index)
  {
    hide CancelAll, Calm;
    CancelAllCalm(s, stale, Other("preparation_source_changed"), now);
    CalmShrinks(s, CancelAll(s, stale, Other("preparation_source_changed"), now));
  }

  lemma SubmitMoves(cfg: Config, s: Store, r: Request, now: Time, i: Identity)
    requires i in s.index && i in Submit(cfg, s, r, now).0.index
    ensures EntryMoves(s, Submit(cfg, s, r, now).0, Submitted(r, now), i)
  {
    hide RefreshedHints, CacheReply, PublicLoad;
  }

  lemma StepShrinksIndex(cfg: Config, s: Store, e: Event)
    requires TreeInv(s) && SlotsMatchJobs(s) && Enabled(s, e) && !e.Submitted?
    ensures IndexShrinks(s.index, Apply(cfg, s, e).index)
  {
    var t := Apply(cfg, s, e);
    hide TreeInv, Calm, Submit, Prepare, Claim, Heartbeat, Observe, WriteCheckpoint, PrivateWait, Finish, Cancel,
      CancelPreparation,
      ExpireAll, WakeAll, IndexShrinks, SlotsMatchJobs, SettleWaits, Cleanup, LoseWorkers, ReconcileStaleSlot,
      ReleaseFailed, DispatchOrder, DueRows;
    match e
    case Prepared(id, scope, work, deadline, now, permitted, fits, stale) =>
      PrepareIndex(s, id, scope, work, deadline, now, permitted, fits, stale);
    case Claimed(rows, d) => ClaimShrinks(cfg, s, rows, d);
    case Beaten(id, attempt, now) => HeartbeatCalm(cfg, s, id, attempt, now); CalmShrinks(s, t);
    case Observed(id, attempt, text, now, alive, fits) => WorkerIndex(cfg, s, e); SameIndexShrinks(s, t);
    case Checkpointed(id, attempt, frames, scope, now, alive, fits) => WorkerIndex(cfg, s, e); SameIndexShrinks(s, t);
    case Waited(id, attempt, child, now, alive, room) => WorkerIndex(cfg, s, e); SameIndexShrinks(s, t);
    case Finished(id, attempt, report, now, late, alive, fits) =>
      FinishShrinks(cfg, s, id, attempt, report, now, late, alive, fits);
    case CancelledBy(id, scope, now) => CancelCalm(s, id, scope, now); CalmShrinks(s, t);
    case PreparationCancelled(id, scope, now) => CancelCalm(s, id, scope, now); CalmShrinks(s, t);
    case ExpiredAt(due, now) => ExpireAllCalm(s, due, now); CalmShrinks(s, t);
    case Woken(waits, now, fits) => WakeAllIndex(s, waits, now); SameIndexShrinks(s, t);
    case Settled(acked, unread, now) => SettleWaitsCalm(s, acked, unread, now); CalmShrinks(s, t);
    case CleanedUp(id, attempt, failed) => CleanupCalm(s, id, attempt, failed); CalmShrinks(s, t);
    case ProcessLost(lost) => LoseWorkersCalm(s, lost); CalmShrinks(s, t);
    case SlotReconciled(id, attempt, owner, alive, proved) =>
      ReconcileCalm(s, id, attempt, owner, alive, proved); CalmShrinks(s, t);
    case FailuresReleased(expected, delivered) => ReleaseFailedCalm(s, expected, delivered); CalmShrinks(s, t);
  }

  lemma StepMovesEntry(cfg: Config, s: Store, e: Event, i: Identity)
    requires Inv(cfg, s) && Enabled(s, e) && i in s.index && i in Apply(cfg, s, e).index
    ensures EntryMoves(s, Apply(cfg, s, e), e, i)
  {
    hide Inv, TreeInv, SlotsMatchJobs, SlotsBounded, AdmissionBounded, SuccessInv, AnsweredSet, Core, Fifty, Enabled,
      Submit, EntryMoves, IndexShrinks;
    if e.Submitted? {
      SubmitMoves(cfg, s, e.r, e.now, i);
    } else {
      hide Apply;
      InvParts(cfg, s);
      BoundsOf(cfg, s);
      StepShrinksIndex(cfg, s, e);
      ShrunkEntry(s, Apply(cfg, s, e), e, i);
    }
  }

  lemma ShrunkEntry(s: Store, t: Store, e: Event, i: Identity)
    requires IndexShrinks(s.index, t.index) && i in s.index && i in t.index
    ensures EntryMoves(s, t, e, i)
  {
    hide RefreshedHints;
  }

  lemma WorkerIndex(cfg: Config, s: Store, e: Event)
    requires e.Observed? || e.Checkpointed? || e.Waited?
    ensures Apply(cfg, s, e).index == s.index
  {
    hide CheckpointAccepted, WaitCount, HasWait, WaitAt;
  }

  lemma StepKeepsEntryHints(cfg: Config, s: Store, e: Event, i: Identity, p: PacketId)
    requires Inv(cfg, s) && Enabled(s, e) && i in s.index && i in Apply(cfg, s, e).index
    requires s.index[i] in s.jobs && p in s.jobs[s.index[i]].hints
    ensures Apply(cfg, s, e).index[i] in Apply(cfg, s, e).jobs
    ensures p in Apply(cfg, s, e).jobs[Apply(cfg, s, e).index[i]].hints
  {
    hide Inv, Apply, Enabled, Evolves, RefreshedHints;
    var t := Apply(cfg, s, e);
    StepMovesEntry(cfg, s, e, i);
    StepKeepsInvariant(cfg, s, e);
    JobOnlyGrows(s, t, s.index[i]);
    if t.index[i] != s.index[i] {
      RefreshKeepsHints(s, e.r, s.index[i], p);
    }
  }

  /** The identity is indexed in every state of the run. */
  ghost predicate StaysIndexed(cfg: Config, s: Store, run: seq<Event>, i: Identity) {
    forall k :: 0 <= k <= |run| ==> i in After(cfg, s, run[..k]).index
  }

  /** Across any number of refreshes, an inquiry's generation keeps every hint that any
      earlier generation had. */
  lemma {:induction false} HintsOnlyGrow(cfg: Config, s: Store, run: seq<Event>, i: Identity, p: PacketId)
    requires Inv(cfg, s) && Run(cfg, s, run) && StaysIndexed(cfg, s, run, i)
    requires i in s.index && s.index[i] in s.jobs && p in s.jobs[s.index[i]].hints
    ensures var t := After(cfg, s, run);
      i in t.index && t.index[i] in t.jobs && p in t.jobs[t.index[i]].hints
    decreases |run|
  {
    hide Inv, Apply, Enabled, Evolves;
    if run != [] {
      var before := run[..|run| - 1];
      assert run[..|run|] == run;
      assert i in After(cfg, s, run[..|run|]).index && i in After(cfg, s, run[..|run| - 1]).index;
      assert StaysIndexed(cfg, s, before, i) by {
        forall k | 0 <= k <= |before|
          ensures i in After(cfg, s, before[..k]).index
        {
          assert before[..k] == run[..k];
        }
      }
      HintsOnlyGrow(cfg, s, before, i, p);
      RunKeepsInvariant(cfg, s, before);
      StepKeepsEntryHints(cfg, After(cfg, s, before), run[|run| - 1], i, p);
    }
  }
}
