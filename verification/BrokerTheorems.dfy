/** The broker's guarantees over whole runs: every statement here is about a store that some
    interleaving of transactions reaches from the empty one. */
module BrokerTheorems {
  import opened Prelude
  import opened BrokerModel
  import opened BrokerSteps
  import opened BrokerInvariant
  import opened BrokerTree
  import opened BrokerCalm
  import opened BrokerRuns
  import opened BrokerSafety
  import opened BrokerSelection
  import opened BrokerSlotLife
  import opened BrokerCache
  import opened BrokerAnswers
  import opened BrokerWakes
  import opened BrokerWriteEffects
  import opened BrokerEndings
  import opened BrokerReports
  import opened BrokerClaimEffects
  import opened BrokerWakeEffects

  ghost function Reached(cfg: Config, run: seq<Event>): Store {
    After(cfg, EMPTY, run)
  }

  /** The store between two parts of a run, and the runs on both sides of it. */
  lemma Split(cfg: Config, first: seq<Event>, rest: seq<Event>)
    requires Run(cfg, EMPTY, first + rest)
    ensures Inv(cfg, Reached(cfg, first)) && Run(cfg, Reached(cfg, first), rest)
    ensures After(cfg, Reached(cfg, first), rest) == Reached(cfg, first + rest)
  {
    hide Inv, Run, After;
    RunSplits(cfg, EMPTY, first, rest);
    ReachableInvariant(cfg, first);
  }

  lemma SplitStep(cfg: Config, first: seq<Event>, e: Event, rest: seq<Event>)
    requires Run(cfg, EMPTY, first + [e] + rest)
    ensures var s := Reached(cfg, first);
      && Inv(cfg, s) && Enabled(s, e) && Run(cfg, Apply(cfg, s, e), rest)
      && After(cfg, Apply(cfg, s, e), rest) == Reached(cfg, first + [e] + rest)
  {
    hide Inv, Apply, Enabled;
    Split(cfg, first + [e], rest);
    RunSplits(cfg, EMPTY, first + [e], rest);
    var upto := first + [e];
    assert upto[..|upto| - 1] == first && upto[|upto| - 1] == e;
    ReachableInvariant(cfg, first);
  }

  // ----- fencing -------------------------------------------------------------------

  /** A write is accepted only while its attempt is the job's current one and running. */
  lemma WritesAreCurrent(cfg: Config, run: seq<Event>, e: Event)
    requires Run(cfg, EMPTY, run) && IsWrite(e)
    ensures Accepted(cfg, Reached(cfg, run), e) ==>
      var s := Reached(cfg, run);
      e.id in s.jobs && s.jobs[e.id].attempt == e.attempt && s.jobs[e.id].status.Running?
    ensures !Accepted(cfg, Reached(cfg, run), e) ==> Apply(cfg, Reached(cfg, run), e) == Reached(cfg, run)
  {
    hide Accepted, Apply, Run, After;
    if Accepted(cfg, Reached(cfg, run), e) {
      AcceptedOnlyWhileRunning(cfg, Reached(cfg, run), e);
    } else {
      RefusedChangesNothing(cfg, Reached(cfg, run), e);
    }
  }

  /** Once an attempt was superseded or stopped running, no write of it or of an earlier
      one changes anything, in any continuation. */
  lemma StaleWritesChangeNothing(cfg: Config, first: seq<Event>, rest: seq<Event>, e: Event, attempt: int)
    requires Run(cfg, EMPTY, first + rest) && IsWrite(e)
    requires Fenced(Reached(cfg, first), e.id, attempt) && e.attempt <= attempt
    ensures !Accepted(cfg, Reached(cfg, first + rest), e)
    ensures Apply(cfg, Reached(cfg, first + rest), e) == Reached(cfg, first + rest)
  {
    hide Inv, Accepted, Apply, Run, After;
    Split(cfg, first, rest);
    FencedForever(cfg, Reached(cfg, first), rest, e, attempt);
  }

  /** Accepted writes to one job carry attempts that never go back, and strictly later ones
      after a report or a wait. */
  lemma AcceptedWritesInOrder(cfg: Config, first: seq<Event>, e: Event, rest: seq<Event>, later: Event)
    requires Run(cfg, EMPTY, first + [e] + rest) && IsWrite(e) && IsWrite(later) && later.id == e.id
    requires Accepted(cfg, Reached(cfg, first), e) && Accepted(cfg, Reached(cfg, first + [e] + rest), later)
    ensures e.attempt <= later.attempt
    ensures e.Finished? || e.Waited? ==> e.attempt < later.attempt
  {
    hide Inv, Accepted, Apply, Enabled, Run, After;
    SplitStep(cfg, first, e, rest);
    AcceptedAttemptsInOrder(cfg, Reached(cfg, first), e, rest, later);
  }

  /** An expiry ends every due job with one more attempt, as partial if it has findings or
      evidence and as failed otherwise, even if an ancestor's cascade cancelled it first. */
  lemma ExpiryEndsEveryDueJob(cfg: Config, run: seq<Event>, due: seq<(JobId, Job)>, now: Time, id: JobId)
    requires Run(cfg, EMPTY, run) && DueRows(Reached(cfg, run), due, now)
    requires id in Reached(cfg, run).jobs && PastDeadline(Reached(cfg, run).jobs[id], now)
    ensures var s, t := Reached(cfg, run), ExpireAll(Reached(cfg, run), due, now);
      && id in t.jobs && t.jobs[id] == TimedOut(s.jobs[id], now)
      && Fenced(t, id, s.jobs[id].attempt)
  {
    hide Inv, Run, After, TreeInv, Core, Fifty, DueRows, ExpireAll;
    ReachableInvariant(cfg, run);
    InvParts(cfg, Reached(cfg, run));
    DueJobExpires(Reached(cfg, run), due, now, id);
  }

  /** Attempts never decrease, and an attempt that stopped running does not run again. */
  lemma AttemptsOnlyGrow(cfg: Config, first: seq<Event>, rest: seq<Event>, id: JobId)
    requires Run(cfg, EMPTY, first + rest) && id in Reached(cfg, first).jobs
    ensures var a, b := Reached(cfg, first), Reached(cfg, first + rest);
      && id in b.jobs && a.jobs[id].attempt <= b.jobs[id].attempt
      && (b.jobs[id].status.Running? && b.jobs[id].attempt == a.jobs[id].attempt ==> a.jobs[id].status.Running?)
  {
    hide Inv, Run, After, Evolves;
    Split(cfg, first, rest);
    RunKeepsInvariant(cfg, Reached(cfg, first), rest);
    JobOnlyGrows(Reached(cfg, first), Reached(cfg, first + rest), id);
  }

  /** No live job sits below a terminal ancestor, at any depth, after any transaction. */
  lemma NoOrphanAtAnyDepth(cfg: Config, run: seq<Event>, id: JobId, ancestor: JobId, n: nat)
    requires Run(cfg, EMPTY, run) && Under(Reached(cfg, run).edges, id, ancestor, n)
    requires ancestor in Reached(cfg, run).jobs && Reached(cfg, run).jobs[ancestor].status.Terminal()
    ensures id in Reached(cfg, run).jobs && Reached(cfg, run).jobs[id].status.Terminal()
  {
    hide Inv, Run, After, TreeInv, Core, Fifty;
    ReachableInvariant(cfg, run);
    InvParts(cfg, Reached(cfg, run));
    NoLiveJobBelowTerminal(Reached(cfg, run), id, ancestor, n);
  }

  /** A parent registers at most one wait in its whole life. */
  lemma OneWaitPerParent(cfg: Config, first: seq<Event>, e: Event, rest: seq<Event>, again: Event)
    requires Run(cfg, EMPTY, first + [e] + rest) && e.Waited? && again.Waited? && again.id == e.id
    requires Accepted(cfg, Reached(cfg, first), e)
    ensures !Accepted(cfg, Reached(cfg, first + [e] + rest), again)
  {
    hide Inv, Accepted, Apply, Enabled, Run, After;
    SplitStep(cfg, first, e, rest);
    WaitedForever(cfg, Reached(cfg, first), e, rest, again);
  }

  // ----- slots and selection -------------------------------------------------------

  /** From any reachable store, a slot leaves only by its own proved cleanup, by a claim that
      saw its lease over and its owner dead, or by the exact stale-slot reconciliation. */
  lemma SlotsLeaveThreeWays(cfg: Config, run: seq<Event>, e: Event, id: JobId)
    requires Run(cfg, EMPTY, run) && id in Reached(cfg, run).slots
    ensures SlotHeld(Reached(cfg, run), Apply(cfg, Reached(cfg, run), e), id) || Leaves(Reached(cfg, run), e, id)
  {
    hide Inv, Apply, Run, After, SlotHeld, Leaves, SlotsMatchJobs;
    ReachableInvariant(cfg, run);
    SlotsOfInv(cfg, Reached(cfg, run));
    SlotLeavesOnlyBy(cfg, Reached(cfg, run), e, id);
  }

  /** A slot whose owner is alive at every claim, or whose cleanup failed, stays through any
      continuation that neither cleans it up nor reconciles exactly it. */
  lemma SafeSlotStays(cfg: Config, first: seq<Event>, rest: seq<Event>, id: JobId)
    requires Run(cfg, EMPTY, first + rest) && id in Reached(cfg, first).slots
    requires forall k :: 0 <= k < |rest| ==> SlotSafe(rest[k], id, Reached(cfg, first).slots[id])
    ensures SlotHeld(Reached(cfg, first), Reached(cfg, first + rest), id)
  {
    hide Inv, Run, After, SlotHeld, SlotSafe;
    Split(cfg, first, rest);
    SlotStays(cfg, Reached(cfg, first), rest, id);
  }

  /** From any reachable store, a claim starts the least job that passes every gate, or none
      because none passes, and only retires or requeues others. */
  lemma ClaimsSelectLeast(cfg: Config, run: seq<Event>, rows: seq<JobId>, d: Dispatch)
    requires Run(cfg, EMPTY, run) && DispatchOrder(Reached(cfg, run), rows)
    ensures var s := Reached(cfg, run);
      var s0 := Reclaim(s, d);
      var (t, started) := Claim(cfg, s, rows, d);
      && s0.jobs == s.jobs
      && (started.None? ==> forall id :: id in s.jobs ==> !Passes(s0, id, d))
      && (started.Some? ==>
            && started.value in s.jobs && Passes(s0, started.value, d)
            && (forall id :: id in s.jobs && id != started.value && Passes(s0, id, d) ==> Before(s, started.value, id))
            && started.value in t.jobs && t.jobs[started.value].status.Running?
            && t.jobs[started.value].attempt == s.jobs[started.value].attempt + 1)
      && (forall id :: id in s.jobs && started != Some(id) ==> id in t.jobs && PassedOver(s0, id, d, t.jobs[id]))
  {
    hide Inv, Run, After, TreeInv, Core, Fifty, Claim, Reclaim, Passes, PassedOver, Before, DispatchOrder;
    ReachableInvariant(cfg, run);
    InvParts(cfg, Reached(cfg, run));
    ClaimIsCorrectSelection(cfg, Reached(cfg, run), rows, d);
  }

  // ----- evidence and checkpoints --------------------------------------------------

  /** A child's result is in its parent's log at most once, however often wake ran. */
  lemma ChildResultsAppearOnce(cfg: Config, run: seq<Event>, p: JobId, i: int, j: int)
    requires Run(cfg, EMPTY, run) && p in Reached(cfg, run).jobs
    requires 0 <= i < |Reached(cfg, run).jobs[p].observations| && 0 <= j < |Reached(cfg, run).jobs[p].observations|
    requires Reached(cfg, run).jobs[p].observations[i].body.ChildResult?
    requires Reached(cfg, run).jobs[p].observations[j].body.ChildResult?
    requires Reached(cfg, run).jobs[p].observations[i].body.child == Reached(cfg,
      run).jobs[p].observations[j].body.child
    ensures i == j
  {
    hide Inv, Run, After;
    ReachableInvariant(cfg, run);
    ChildResultOnce(cfg, Reached(cfg, run), p, i, j);
  }

  /** And at least once: a wake that is not rolled back files the result of every finished child
      it lists under a live parent, and then the entry is in the log, with its own position as
      its ordinal, after any continuation. */
  lemma WakesFileResults(cfg: Config, first: seq<Event>, waits: seq<(JobId, int)>, now: Time, rest: seq<Event>,
                         p: JobId, g: int)
    requires Run(cfg, EMPTY, first + [Woken(waits, now, true)] + rest)
    requires (p, g) in waits && Deliverable(Reached(cfg, first), p, g)
    ensures ResultLogged(Reached(cfg, first + [Woken(waits, now, true)] + rest), ResultKey(Reached(cfg, first), p, g))
  {
    var e := Woken(waits, now, true);
    var s := Reached(cfg, first);
    SplitStep(cfg, first, e, rest) by { hide Inv, Apply, Enabled, Run, After; }
    assert Apply(cfg, s, e) == Wake(s, waits, now, true) by { hide Inv, Run, After; }
    hide Inv, Apply, Enabled, Run, After, Wake, Deliverable, ResultLogged;
    WakeFiles(s, waits, now);
    StepKeepsInvariant(cfg, s, e);
    RunKeepsInvariant(cfg, Apply(cfg, s, e), rest);
    FiledIsLogged(cfg, After(cfg, Apply(cfg, s, e), rest), ResultKey(s, p, g));
  }

  /** And once it was filed it is there. */
  lemma FiledResultsAppear(cfg: Config, run: seq<Event>, key: ChildKey)
    requires Run(cfg, EMPTY, run) && key in Reached(cfg, run).childPackets
    ensures var s := Reached(cfg, run);
      && key.parent in s.jobs
      && exists k :: 0 <= k < |s.jobs[key.parent].observations|
           && s.jobs[key.parent].observations[k].id == s.childPackets[key]
           && s.jobs[key.parent].observations[k].body.ChildResult?
           && s.jobs[key.parent].observations[k].body.child == key.child
  {
    hide Inv, Run, After;
    ReachableInvariant(cfg, run);
    FiledResultLogged(cfg, Reached(cfg, run), key);
  }

  /** An observation keeps its place and content, so a child's ordinal is its position forever. */
  lemma LogsAreAppendOnly(cfg: Config, first: seq<Event>, rest: seq<Event>, id: JobId, k: int)
    requires Run(cfg, EMPTY, first + rest) && id in Reached(cfg, first).jobs
    requires 0 <= k < |Reached(cfg, first).jobs[id].observations|
    ensures var t := Reached(cfg, first + rest);
      id in t.jobs && k < |t.jobs[id].observations|
        && t.jobs[id].observations[k] == Reached(cfg, first).jobs[id].observations[k]
  {
    hide Inv, Run, After;
    Split(cfg, first, rest);
    ObservationsArePermanent(cfg, Reached(cfg, first), rest, id, k);
  }

  /** Nothing observed after a checkpoint is lost behind it. */
  lemma CheckpointHidesNothingLater(cfg: Config, first: seq<Event>, rest: seq<Event>, id: JobId, k: int)
    requires Run(cfg, EMPTY, first + rest) && id in Reached(cfg, first).jobs && id in Reached(cfg, first).checkpoints
    requires id in Reached(cfg, first + rest).jobs && id in Reached(cfg, first + rest).checkpoints
    requires Reached(cfg, first + rest).checkpoints[id] == Reached(cfg, first).checkpoints[id]
    requires |Reached(cfg, first).jobs[id].observations| <= k < |Reached(cfg, first + rest).jobs[id].observations|
    ensures k < |PublicObservations(Reached(cfg, first + rest), id)|
    ensures PublicObservations(Reached(cfg, first + rest), id)[k] == Reached(cfg, first + rest).jobs[id].observations[k]
  {
    hide Inv, Run, After, PublicObservations;
    Split(cfg, first, rest);
    LaterObservationsShownRaw(cfg, Reached(cfg, first), rest, id, k);
  }

  // ----- the cache -----------------------------------------------------------------

  /** While an inquiry stays indexed, its generation keeps every hint any earlier one had. */
  lemma RefreshesKeepHints(cfg: Config, first: seq<Event>, rest: seq<Event>, i: Identity, p: PacketId)
    requires Run(cfg, EMPTY, first + rest) && StaysIndexed(cfg, Reached(cfg, first), rest, i)
    requires i in Reached(cfg, first).index && Reached(cfg, first).index[i] in Reached(cfg, first).jobs
    requires p in Reached(cfg, first).jobs[Reached(cfg, first).index[i]].hints
    ensures var t := Reached(cfg, first + rest);
      i in t.index && t.index[i] in t.jobs && p in t.jobs[t.index[i]].hints
  {
    hide Inv, Run, After, StaysIndexed;
    Split(cfg, first, rest);
    HintsOnlyGrow(cfg, Reached(cfg, first), rest, i, p);
  }

  // ----- reports --------------------------------------------------------------------

  /** An accepted report stores what it says and keeps what it leaves out; before the deadline
      a success with an answer is committed as that success. */
  lemma ReportsAreStored(cfg: Config, run: seq<Event>, e: Event)
    requires Run(cfg, EMPTY, run) && e.Finished? && Accepted(cfg, Reached(cfg, run), e)
    ensures var s, t, r := Reached(cfg, run), Apply(cfg, Reached(cfg, run), e), e.report;
      && e.id in s.jobs && e.id in t.jobs
      && var x, y := s.jobs[e.id], t.jobs[e.id];
      && y.answer == (if r.answer.Some? then r.answer.value else x.answer)
      && y.findings == (if r.findings.Some? then r.findings.value else x.findings)
      && y.evidence == x.evidence && y.observations == x.observations && y.attempt == x.attempt
      && ((x.deadline.None? || e.now < x.deadline.value) && r.status == Completed && !Wordless(y.answer) ==>
            y.status == Completed && y.reason == r.reason)
      && (y.status.Terminal() ==> y.result == Some(|s.outbox|) && t.outbox == s.outbox + [Row(e.id, [])])
  {
    hide Inv, Run, After, TreeInv, Core, Fifty, Finish, HoldsFence, MayReport, Counted, Written, RecordFor;
    var s := Reached(cfg, run);
    ReachableInvariant(cfg, run);
    InvParts(cfg, s);
    ReportIsCommitted(cfg, s, e.id, e.attempt, e.report, e.now, e.late, e.alive, e.fits);
    var t := Apply(cfg, s, e);
    FenceIs(s, e.id, e.attempt, e.now, e.alive);
    var m :| Counted(s, m, e.id, e.report) && Written(m, t, e.id, t.jobs[e.id], e.report, e.late);
    FieldsOfReport(cfg, s.jobs[e.id], t.jobs[e.id], s.frames[e.id].failures, e.report, e.now, e.late, |s.outbox|);
    RowOfReport(s, m, t, e.id, e.report, e.late);
  }

  lemma FieldsOfReport(cfg: Config, x: Job, y: Job, failures: int, r: Report, now: Time, late: Time, row: PacketId)
    requires RecordFor(cfg, x, y, failures, r, now, late, row)
    ensures y.answer == (if r.answer.Some? then r.answer.value else x.answer)
    ensures y.findings == (if r.findings.Some? then r.findings.value else x.findings)
    ensures y.evidence == x.evidence && y.observations == x.observations && y.attempt == x.attempt
    ensures (x.deadline.None? || now < x.deadline.value) && r.status == Completed && !Wordless(y.answer) ==>
      y.status == Completed && y.reason == r.reason
    ensures y.status.Terminal() ==> y.result == Some(row)
  {
    hide Wordless, DelayFor;
  }

  lemma RowOfReport(s: Store, m: Store, t: Store, id: JobId, r: Report, late: Time)
    requires id in s.frames && Counted(s, m, id, r) && id in t.jobs && Written(m, t, id, t.jobs[id], r, late)
    ensures t.jobs[id].status.Terminal() ==> t.outbox == s.outbox + [Row(id, [])]
  {
    if t.jobs[id].status.Terminal() {
      OutboxWritten(m, t, id, t.jobs[id], r, late);
    }
    hide Written, ResultShown, Fails;
  }

  lemma OutboxWritten(m: Store, t: Store, id: JobId, y: Job, r: Report, late: Time)
    requires Written(m, t, id, y, r, late) && y.status.Terminal()
    ensures t.outbox == m.outbox + [Row(id, [])]
  {
    hide EndingFor, EndedAndTrimmed;
    var m1 := m.(outbox := m.outbox + [Row(id, [])]);
    if r.consumed.Some? {
      TrimmedOutbox(m1.(jobs := m.jobs[id := y], waits := m.waits[id := [m.waits[id][0].(acked := true)]]), t);
    } else {
      EndedOutbox(m1, t, id, y, EndingFor(y), late);
    }
    hide IndexTrimmed;
  }

  lemma TrimmedOutbox(s: Store, t: Store)
    requires IndexTrimmed(s, t)
    ensures t.outbox == s.outbox
  {
    hide Ahead, Serves;
  }

  lemma EndedOutbox(s: Store, t: Store, id: JobId, ended: Job, outcome: Outcome, now: Time)
    requires EndedAndTrimmed(s, t, id, ended, outcome, now)
    ensures t.outbox == s.outbox
  {
    hide JobsBelowEnded, FramesBelowEnded, IndexTrimmed;
    assert t.(index := s.index).outbox == t.outbox;
  }

  /** And a final one stays stored in every continuation. */
  lemma FinalReportsStay(cfg: Config, first: seq<Event>, e: Event, rest: seq<Event>)
    requires Run(cfg, EMPTY, first + [e] + rest) && e.Finished? && Accepted(cfg, Reached(cfg, first), e)
    ensures var m, t := Apply(cfg, Reached(cfg, first), e), Reached(cfg, first + [e] + rest);
      e.id in m.jobs && (m.jobs[e.id].status.Terminal() ==> e.id in t.jobs && t.jobs[e.id] == m.jobs[e.id])
  {
    hide Inv, Accepted, Apply, Enabled, Run, After, Evolves;
    SplitStep(cfg, first, e, rest);
    var s := Reached(cfg, first);
    AcceptedOnlyWhileRunning(cfg, s, e);
    StepKeepsInvariant(cfg, s, e);
    JobOnlyGrows(s, Apply(cfg, s, e), e.id);
    RunKeepsInvariant(cfg, Apply(cfg, s, e), rest);
    JobIsFinal(Apply(cfg, s, e), After(cfg, Apply(cfg, s, e), rest), e.id);
  }

  lemma JobIsFinal(s: Store, t: Store, id: JobId)
    requires Evolves(s, t) && id in s.jobs
    ensures id in t.jobs && (s.jobs[id].status.Terminal() ==> t.jobs[id] == s.jobs[id])
  {
    assert JobEvolves(s.jobs[id], t.jobs[id]);
  }

  // ----- owners ---------------------------------------------------------------------

  /** The execution that a claim began is neither cleaned up nor reconciled, and every later
      claim sees its owner alive. */
  ghost predicate OwnerServes(e: Event, id: JobId, attempt: int, owner: Process) {
    && !(e.CleanedUp? && e.id == id && e.attempt == attempt && !e.failed)
    && !(e.SlotReconciled? && e.id == id && e.attempt == attempt && e.owner == owner && owner !in e.alive)
    && (e.Claimed? ==> owner in e.d.alive)
  }

  /** A claim gives the job it begins a slot of the dispatcher that claimed, and while that
      process lives the slot stays, whatever happens to its lease; and as long as the attempt
      runs, it may write, even after its lease. */
  lemma ClaimedSlotStays(cfg: Config, first: seq<Event>, rows: seq<JobId>, d: Dispatch, rest: seq<Event>, id: JobId,
                         owner: Process)
    requires Run(cfg, EMPTY, first + [Claimed(rows, d)] + rest)
    requires Claim(cfg, Reached(cfg, first), rows, d).1 == Some(id) && d.owner == Some(owner)
    requires id in Reached(cfg, first).jobs
    requires forall k :: 0 <= k < |rest| ==>
      OwnerServes(rest[k], id, Reached(cfg, first).jobs[id].attempt + 1, owner)
    ensures var t, attempt := Reached(cfg, first + [Claimed(rows, d)] + rest), Reached(cfg, first).jobs[id].attempt + 1;
      && id in t.slots && t.slots[id].attempt == attempt && t.slots[id].owner == Some(owner)
      && (id in t.jobs && t.jobs[id].status == Running && t.jobs[id].attempt == attempt ==>
            forall text, now, alive :: owner in alive ==>
              Observe(cfg, t, id, attempt, text, now, alive, true).1 == Some(|t.outbox|))
  {
    var e := Claimed(rows, d);
    var s := Reached(cfg, first);
    SplitStep(cfg, first, e, rest) by { hide Inv, Apply, Enabled, Run, After, OwnerServes; }
    assert DispatchOrder(s, rows) && Apply(cfg, s, e) == Claim(cfg, s, rows, d).0 by {
      hide Inv, Run, After, Claim, OwnerServes;
    }
    hide *;
    SlotServes(cfg, s, rows, d, rest, id, owner);
    OwnerMayWrite(cfg, After(cfg, Apply(cfg, s, e), rest), id, s.jobs[id].attempt + 1, owner);
  }

  lemma SlotServes(cfg: Config, s: Store, rows: seq<JobId>, d: Dispatch, rest: seq<Event>, id: JobId, owner: Process)
    requires Inv(cfg, s) && DispatchOrder(s, rows) && Claim(cfg, s, rows, d).1 == Some(id) && d.owner == Some(owner)
    requires id in s.jobs && Run(cfg, Claim(cfg, s, rows, d).0, rest)
    requires forall k :: 0 <= k < |rest| ==> OwnerServes(rest[k], id, s.jobs[id].attempt + 1, owner)
    ensures var t := After(cfg, Claim(cfg, s, rows, d).0, rest);
      id in t.slots && t.slots[id].attempt == s.jobs[id].attempt + 1 && t.slots[id].owner == Some(owner)
  {
    hide Inv, Run, After, Claim, DispatchOrder, SlotSafe, OwnerServes;
    ClaimGivesSlot(cfg, s, rows, d, id);
    var m := Claim(cfg, s, rows, d).0;
    ClaimKeepsInv(cfg, s, rows, d);
    forall k | 0 <= k < |rest|
      ensures SlotSafe(rest[k], id, m.slots[id])
    {
      ServedIsSafe(rest[k], id, m.slots[id], owner);
    }
    SlotStays(cfg, m, rest, id);
  }

  lemma ClaimKeepsInv(cfg: Config, s: Store, rows: seq<JobId>, d: Dispatch)
    requires Inv(cfg, s) && DispatchOrder(s, rows)
    ensures Inv(cfg, Claim(cfg, s, rows, d).0)
  {
    hide Inv, Claim, DispatchOrder;
    StepKeepsInvariant(cfg, s, Claimed(rows, d));
  }

  lemma OwnerMayWrite(cfg: Config, t: Store, id: JobId, attempt: int, owner: Process)
    requires id in t.slots && t.slots[id].attempt == attempt && t.slots[id].owner == Some(owner)
    ensures id in t.jobs && t.jobs[id].status == Running && t.jobs[id].attempt == attempt ==>
      forall text, now, alive :: owner in alive ==>
        Observe(cfg, t, id, attempt, text, now, alive, true).1 == Some(|t.outbox|)
  {
    hide Observe, HoldsFence, ObservationStored;
    forall text, now, alive | owner in alive && id in t.jobs && t.jobs[id].status == Running
      && t.jobs[id].attempt == attempt
      ensures Observe(cfg, t, id, attempt, text, now, alive, true).1 == Some(|t.outbox|)
    {
      OwnerHoldsFence(t, id, attempt, now, alive, owner);
      ObservationIsStored(cfg, t, id, attempt, text, now, alive, true);
    }
  }

  lemma OwnerHoldsFence(s: Store, id: JobId, attempt: int, now: Time, alive: set<Process>, owner: Process)
    requires id in s.jobs && s.jobs[id].status == Running && s.jobs[id].attempt == attempt
    requires id in s.slots && s.slots[id].attempt == attempt && s.slots[id].owner == Some(owner) && owner in alive
    ensures HoldsFence(s, id, attempt, now, alive)
  {
  }

  lemma ServedIsSafe(e: Event, id: JobId, slot: Slot, owner: Process)
    requires OwnerServes(e, id, slot.attempt, owner) && slot.owner == Some(owner)
    ensures SlotSafe(e, id, slot)
  {
  }

  lemma ClaimGivesSlot(cfg: Config, s: Store, rows: seq<JobId>, d: Dispatch, id: JobId)
    requires Inv(cfg, s) && DispatchOrder(s, rows) && Claim(cfg, s, rows, d).1 == Some(id)
    ensures var t := Claim(cfg, s, rows, d).0;
      && id in s.jobs && id in t.slots && id in t.jobs
      && t.slots[id] == Slot(s.jobs[id].attempt + 1, d.now + cfg.leaseSeconds, d.owner, false)
      && t.jobs[id].status == Running && t.jobs[id].attempt == s.jobs[id].attempt + 1
  {
    InvParts(cfg, s) by { hide Inv, TreeInv, Core, Fifty; }
    hide Inv, Core, Fifty, TreeInv, Claim, Reclaim, DispatchOrder, MayBegin, Passed, Earlier, FrameLets;
    ClaimMeans(cfg, s, rows, d);
    assert TakenBack(s, Reclaim(s, d), d);
    SlotOnly(s, Reclaim(s, d), d);
  }

  lemma SlotOnly(s: Store, s0: Store, d: Dispatch)
    requires TakenBack(s, s0, d)
    ensures s0.jobs == s.jobs
  {
    hide SlotOver;
  }

  // ----- results of children --------------------------------------------------------

  /** The `n`-th entry of the parent's log is this child's result: how it ended, at its place,
      with exactly the packets of its outcome, which the entry's own outbox row names as its
      parents. */
  ghost predicate OutcomeLoggedAt(t: Store, p: JobId, n: int, child: JobId, outcome: Outcome) {
    && p in t.jobs && 0 <= n < |t.jobs[p].observations|
    && var entry := t.jobs[p].observations[n];
    && entry.body.ChildResult? && entry.body.child == child && entry.body.ordinal == n + 1
    && entry.body.ending == outcome.ending && CitesOutcome(entry.body.refs, outcome)
    && 0 <= entry.id < |t.outbox| && t.outbox[entry.id] == Row(p, entry.body.refs)
  }

  /** A wake puts the result of every listed wait that is over, under a parent that is alive and
      was not given it before, at the end of the parent's log, with the child's own ending and
      packets; and there it stays. */
  lemma WakesFileOutcomes(cfg: Config, first: seq<Event>, waits: seq<(JobId, int)>, now: Time, rest: seq<Event>,
                          p: JobId)
    requires Run(cfg, EMPTY, first + [Woken(waits, now, true)] + rest) && (p, 1) in waits
    requires var s := Reached(cfg, first);
      Over(s, p) && Alive(s, p) && ChildKey(p, 1, s.waits[p][0].child) !in s.childPackets
    ensures var s, m := Reached(cfg, first), Reached(cfg, first + [Woken(waits, now, true)]);
      var child, n := s.waits[p][0].child, |s.jobs[p].observations|;
      && p in m.jobs && |m.jobs[p].observations| == n + 1 && m.jobs[p].status == QueuedAfterEviction
      && OutcomeLoggedAt(Reached(cfg, first + [Woken(waits, now, true)] + rest), p, n, child,
                         s.frames[child].state.outcome)
  {
    var e := Woken(waits, now, true);
    var s := Reached(cfg, first);
    SplitStep(cfg, first, e, rest) by { hide Inv, Apply, Enabled, Run, After, Over, Alive; }
    WokenNext(cfg, first, waits, now) by { hide Inv, Apply, Enabled, Run, Over, Alive; }
    hide *;
    OutcomeFiled(cfg, s, waits, now, rest, p);
  }

  lemma WokenNext(cfg: Config, first: seq<Event>, waits: seq<(JobId, int)>, now: Time)
    ensures var e := Woken(waits, now, true);
      && Apply(cfg, Reached(cfg, first), e) == Wake(Reached(cfg, first), waits, now, true)
      && Reached(cfg, first + [e]) == Wake(Reached(cfg, first), waits, now, true)
  {
    hide Wake;
    var all := first + [Woken(waits, now, true)];
    assert all[..|all| - 1] == first;
  }

  lemma OutcomeFiled(cfg: Config, s: Store, waits: seq<(JobId, int)>, now: Time, rest: seq<Event>, p: JobId)
    requires Inv(cfg, s) && Run(cfg, Wake(s, waits, now, true), rest) && (p, 1) in waits
    requires Over(s, p) && Alive(s, p) && ChildKey(p, 1, s.waits[p][0].child) !in s.childPackets
    ensures var m := Wake(s, waits, now, true);
      var child, n := s.waits[p][0].child, |s.jobs[p].observations|;
      && p in m.jobs && |m.jobs[p].observations| == n + 1 && m.jobs[p].status == QueuedAfterEviction
      && OutcomeLoggedAt(After(cfg, m, rest), p, n, child, s.frames[child].state.outcome)
  {
    var m := Wake(s, waits, now, true);
    FiledByWake(cfg, s, waits, now, p);
    var child, n := s.waits[p][0].child, |s.jobs[p].observations|;
    hide Inv, Run, After, Wake, Over, Alive, OutcomeLoggedAt, Evolves;
    WakeKeepsInv(cfg, s, waits, now);
    RunKeepsInvariant(cfg, m, rest);
    LoggedStays(m, After(cfg, m, rest), p, n, child, s.frames[child].state.outcome);
  }

  lemma FiledByWake(cfg: Config, s: Store, waits: seq<(JobId, int)>, now: Time, p: JobId)
    requires Inv(cfg, s) && (p, 1) in waits
    requires Over(s, p) && Alive(s, p) && ChildKey(p, 1, s.waits[p][0].child) !in s.childPackets
    ensures var m := Wake(s, waits, now, true);
      var child, n := s.waits[p][0].child, |s.jobs[p].observations|;
      && p in m.jobs && |m.jobs[p].observations| == n + 1 && m.jobs[p].status == QueuedAfterEviction
      && OutcomeLoggedAt(m, p, n, child, s.frames[child].state.outcome)
  {
    hide Inv, TreeInv, Core, Fifty, Wake, OutcomeLoggedAt, ParentAfter, OnlyFiles, RowsAreResults;
    InvParts(cfg, s);
    WakeMeans(s, waits, now, p);
    FiledIsAtEnd(s, Wake(s, waits, now, true), p, now);
  }

  lemma WakeKeepsInv(cfg: Config, s: Store, waits: seq<(JobId, int)>, now: Time)
    requires Inv(cfg, s)
    ensures Inv(cfg, Wake(s, waits, now, true))
  {
    hide Inv, Wake;
    StepKeepsInvariant(cfg, s, Woken(waits, now, true));
  }

  lemma FiledIsAtEnd(s: Store, m: Store, p: JobId, now: Time)
    requires Over(s, p) && Alive(s, p) && ChildKey(p, 1, s.waits[p][0].child) !in s.childPackets
    requires ParentAfter(s, m, p, true, now)
    ensures p in m.jobs && |m.jobs[p].observations| == |s.jobs[p].observations| + 1
    ensures m.jobs[p].status == QueuedAfterEviction
    ensures OutcomeLoggedAt(m, p, |s.jobs[p].observations|, s.waits[p][0].child,
                            s.frames[s.waits[p][0].child].state.outcome)
  {
    hide CitesOutcome;
    assert ResultFiled(s, m, p, now);
  }

  lemma LoggedStays(m: Store, t: Store, p: JobId, n: int, child: JobId, outcome: Outcome)
    requires Evolves(m, t) && OutcomeLoggedAt(m, p, n, child, outcome)
    ensures OutcomeLoggedAt(t, p, n, child, outcome)
  {
    hide CitesOutcome;
    assert JobEvolves(m.jobs[p], t.jobs[p]);
    assert t.jobs[p].observations[n] == m.jobs[p].observations[n];
  }
}
