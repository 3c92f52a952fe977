/** The claim scan row by row, said of the rows themselves: what each job it passes becomes, and
    what the one it begins gets, in the store that the rows before it left. */
module BrokerScans {
  import opened Prelude
  import opened BrokerModel
  import opened BrokerSteps
  import opened BrokerInvariant
  import opened BrokerTree
  import opened BrokerTreeSteps
  import opened BrokerCalm
  import opened BrokerCalmSteps
  import opened BrokerSafety
  import opened BrokerEndings
  import opened BrokerWakeEffects
  import opened BrokerClaimEffects

  /** A parent that may go on: queued again, with its child's result marked ready for good. */
  ghost predicate GoesOn(s: Store, t: Store, id: JobId, now: Time)
    requires id in s.jobs && id in s.frames
  {
    t == if s.frames[id].state == FrameSuspended && ChildResultThere(s, id) then
           s.(jobs := s.jobs[id := s.jobs[id].(status := QueuedAfterEviction, available := now, updated := now)],
              waits := if Over(s, id) then s.waits[id := [s.waits[id][0].(state := WaitReady)]] else s.waits)
         else s
  }

  ghost function WornOutJob(x: Job, now: Time): Job {
    x.(status := if x.findings == [] then Failed else Partial, reason := AttemptOrDeadlineExhausted, lease := 0.0,
       updated := now)
  }

  /** A row the scan passes: closed rows stay; open ones go on, and end if they were offered but
      are worn out. */
  ghost predicate RowPassed(s: Store, t: Store, id: JobId, d: Dispatch) {
    if id !in s.jobs || s.jobs[id].status in {Completed, Partial, Failed, Cancelled} || id !in s.frames
       || !FrameLets(s, id, d.now)
    then t == s
    else exists m :: GoesOn(s, m, id, d.now) && EndsIfWornOut(s, m, t, id, d)
  }

  ghost predicate EndsIfWornOut(s: Store, m: Store, t: Store, id: JobId, d: Dispatch)
    requires id in s.jobs && id in s.frames
  {
    if Offered(s, id, d) && WornOut(s, id, d.now)
    then id in m.jobs && IndexTrimmed(m.(jobs := m.jobs[id := WornOutJob(m.jobs[id], d.now)]), t)
    else t == m
  }

  /** The row the scan begins: one attempt more, under a lease, with a slot of this dispatcher. */
  ghost predicate RowBegun(cfg: Config, s: Store, t: Store, id: JobId, d: Dispatch) {
    && id in s.jobs && id in s.frames
    && exists m :: GoesOn(s, m, id, d.now) && GetsSlot(cfg, s, m, t, id, d)
  }

  ghost predicate GetsSlot(cfg: Config, s: Store, m: Store, t: Store, id: JobId, d: Dispatch)
    requires id in s.jobs && id in s.frames
  {
    && id in m.jobs
    && t == m.(jobs := t.jobs, frames := t.frames, slots := t.slots, workers := t.workers)
    && t.jobs == m.jobs[id := m.jobs[id].(status := Running, attempt := s.jobs[id].attempt + 1,
                                          lease := d.now + cfg.leaseSeconds, updated := d.now)]
    && t.frames == s.frames[id := s.frames[id].(state := FrameRunning)]
    && t.slots == s.slots[id := Slot(s.jobs[id].attempt + 1, d.now + cfg.leaseSeconds, d.owner, false)]
    && t.workers == s.workers + {(id, s.jobs[id].attempt + 1)}
  }

  lemma RequeueGoesOn(s: Store, id: JobId, now: Time)
    requires id in s.jobs && id in s.frames && (id in s.waits ==> |s.waits[id]| == 1)
    requires ReadyToResume(s, id) <==> s.frames[id].state == FrameSuspended && ChildResultThere(s, id)
    ensures GoesOn(s, Requeue(s, id, now), id, now)
  {
    if ReadyToResume(s, id) {
      if Over(s, id) {
        OverIsMarked(s, id);
      } else {
        assert MarkReady(s, id, WaitCount(s, id)) == s;
      }
      hide MarkReady, OutcomeReady, ChildResultThere, Over;
    }
  }

  lemma RetireIs(s: Store, id: JobId, now: Time)
    requires id in s.jobs
    ensures IndexTrimmed(s.(jobs := s.jobs[id := WornOutJob(s.jobs[id], now)]), Retire(s, id, now))
  {
    hide TrimIndex, IndexTrimmed;
    TrimMeans(s.(jobs := s.jobs[id := WornOutJob(s.jobs[id], now)]));
  }

  /** The gates of one row, as facts about the store. */
  lemma RowGates(s: Store, id: JobId, d: Dispatch)
    requires TreeInv(s) && Live(s, id)
    ensures id in s.frames && (id in s.waits ==> |s.waits[id]| == 1)
    ensures FrameGate(s, id, d.now) <==> FrameLets(s, id, d.now)
    ensures ReadyToResume(s, id) <==> s.frames[id].state == FrameSuspended && ChildResultThere(s, id)
    ensures DispatchGate(s, id, d) <==> Offered(s, id, d)
    ensures Exhausted(s, id, d.now) <==> WornOut(s, id, d.now)
  {
    LiveHaveFrames(s);
    OneWaitEach(s);
    hide TreeInv;
    assert OneWaitOf(s, id);
    FrameGateIs(s, id, d.now);
    DispatchGateIs(s, id, d);
    hide FrameGate, DispatchGate, Offered, ReadyToResume, ChildResultThere;
  }

  lemma RowMeans(cfg: Config, s: Store, id: JobId, d: Dispatch)
    requires TreeInv(s) && id in s.jobs
    ensures var (t, began) := ScanRow(cfg, s, id, d);
      && (began <==> MayBegin(s, id, d))
      && if began then RowBegun(cfg, s, t, id, d) else RowPassed(s, t, id, d)
  {
    if Live(s, id) {
      RowGates(s, id, d);
      BeganIs(cfg, s, id, d) by { hide TreeInv; }
      hide TreeInv, FrameGate, FrameLets, DispatchGate, Offered, Exhausted, WornOut, ReadyToResume, ChildResultThere,
        GoesOn, Retire, MayBegin, Start, RowBegun;
      RequeueGoesOn(s, id, d.now);
      RequeueTouches(s, id, d.now);
      var m := Requeue(s, id, d.now);
      if MayBegin(s, id, d) {
        BegunIs(cfg, s, m, id, d);
      } else if FrameGate(s, id, d.now) {
        RetireIs(m, id, d.now);
        hide IndexTrimmed, Requeue;
        assert EndsIfWornOut(s, m, ScanRow(cfg, s, id, d).0, id, d);
      }
    } else {
      hide FrameGate, FrameLets, Offered, TreeInv;
    }
  }

  lemma BeganIs(cfg: Config, s: Store, id: JobId, d: Dispatch)
    requires Live(s, id) && id in s.frames
    requires FrameGate(s, id, d.now) <==> FrameLets(s, id, d.now)
    requires DispatchGate(s, id, d) <==> Offered(s, id, d)
    requires Exhausted(s, id, d.now) <==> WornOut(s, id, d.now)
    ensures ScanRow(cfg, s, id, d).1 <==> MayBegin(s, id, d)
    ensures MayBegin(s, id, d) ==>
      id in Requeue(s, id, d.now).jobs && ScanRow(cfg, s, id, d).0 == Start(cfg, Requeue(s, id, d.now), id, d)
  {
    hide FrameGate, FrameLets, DispatchGate, Offered, Exhausted, WornOut, Requeue, Retire, Start;
    RequeueTouches(s, id, d.now);
  }

  lemma RequeueTouches(s: Store, id: JobId, now: Time)
    requires id in s.jobs
    ensures var m := Requeue(s, id, now);
      && m == s.(jobs := m.jobs, waits := m.waits) && id in m.jobs && m.jobs[id].attempt == s.jobs[id].attempt
  {
    hide ReadyToResume, MarkReady;
    if ReadyToResume(s, id) {
      MarkReadyWaits(s, id, WaitCount(s, id));
    }
  }

  lemma BegunIs(cfg: Config, s: Store, m: Store, id: JobId, d: Dispatch)
    requires id in s.jobs && id in s.frames && GoesOn(s, m, id, d.now)
    requires m == s.(jobs := m.jobs, waits := m.waits) && id in m.jobs && m.jobs[id].attempt == s.jobs[id].attempt
    ensures RowBegun(cfg, s, Start(cfg, m, id, d), id, d)
  {
    assert GetsSlot(cfg, s, m, Start(cfg, m, id, d), id, d) by { hide GoesOn; }
    hide GoesOn, GetsSlot;
  }

  // ----- the scan ---------------------------------------------------------------------

  /** The stores between the rows that were scanned: `n` were passed, and the next, if there is
      one, began. */
  ghost predicate ScannedBy(cfg: Config, stores: seq<Store>, rows: seq<JobId>, d: Dispatch, n: int) {
    && 0 <= n <= |rows| && |stores| == (if n < |rows| then n + 2 else n + 1)
    && (forall k :: 0 <= k < n ==> !MayBegin(stores[k], rows[k], d) && RowPassed(stores[k], stores[k + 1], rows[k], d))
    && (n < |rows| ==> MayBegin(stores[n], rows[n], d) && RowBegun(cfg, stores[n], stores[n + 1], rows[n], d))
  }

  lemma {:induction false} ScanTraced(cfg: Config, s: Store, rows: seq<JobId>, d: Dispatch)
    returns (stores: seq<Store>, n: int)
    requires TreeInv(s)
    ensures ScannedBy(cfg, stores, rows, d, n) && stores[0] == s
    ensures Scan(cfg, s, rows, d) == (stores[|stores| - 1], if n < |rows| then Some(rows[n]) else None)
    decreases |rows|
  {
    hide TreeInv, ScanRow, MayBegin, RowPassed, RowBegun;
    if rows == [] {
      stores, n := [s], 0;
    } else {
      RowStep(cfg, s, rows[0], d);
      var t := if rows[0] in s.jobs then ScanRow(cfg, s, rows[0], d).0 else s;
      if MayBegin(s, rows[0], d) {
        stores, n := [s, t], 0;
      } else {
        var rest, m := ScanTraced(cfg, t, rows[1..], d);
        stores, n := [s] + rest, m + 1;
        PrependedScan(cfg, s, rest, rows, d, m);
      }
    }
  }

  lemma RowStep(cfg: Config, s: Store, id: JobId, d: Dispatch)
    requires TreeInv(s)
    ensures var t := if id in s.jobs then ScanRow(cfg, s, id, d).0 else s;
      && TreeInv(t)
      && (MayBegin(s, id, d) ==> id in s.jobs && ScanRow(cfg, s, id, d).1 && RowBegun(cfg, s, t, id, d))
      && (!MayBegin(s, id, d) ==> (id in s.jobs ==> !ScanRow(cfg, s, id, d).1) && RowPassed(s, t, id, d))
  {
    if id in s.jobs {
      hide TreeInv, ScanRow, RowPassed, RowBegun, MayBegin;
      ScanRowKeepsTree(cfg, s, id, d);
      RowMeans(cfg, s, id, d);
    } else {
      hide TreeInv, FrameLets, Offered;
    }
  }

  lemma PrependedScan(cfg: Config, s: Store, rest: seq<Store>, rows: seq<JobId>, d: Dispatch, m: int)
    requires rows != [] && ScannedBy(cfg, rest, rows[1..], d, m)
    requires !MayBegin(s, rows[0], d) && RowPassed(s, rest[0], rows[0], d)
    ensures ScannedBy(cfg, [s] + rest, rows, d, m + 1)
    ensures m + 1 < |rows| ==> rows[m + 1] == rows[1..][m]
  {
    hide RowPassed, RowBegun, MayBegin;
    var stores := [s] + rest;
    forall k | 0 <= k < m + 1
      ensures !MayBegin(stores[k], rows[k], d) && RowPassed(stores[k], stores[k + 1], rows[k], d)
    {
      if k > 0 {
        assert rows[k] == rows[1..][k - 1];
      }
    }
  }
}
