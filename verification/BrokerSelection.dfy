/** The claim's scan is a correct selection: it starts the least job, in dispatch order, that
    passes every gate at that instant, or none if no job passes. */
module BrokerSelection {
  import opened Prelude
  import opened BrokerModel
  import opened BrokerSteps
  import opened BrokerInvariant
  import opened BrokerTree
  import opened BrokerTreeSteps
  import opened BrokerCalm
  import opened BrokerCalmSteps
  import opened BrokerClaims

  /** A wait is as it was, or its finished child made it ready. */
  ghost predicate WaitSettles(frames: map<JobId, Frame>, a: Wait, b: Wait) {
    b == a || (b == a.(state := WaitReady) && !a.state.WaitRetired? && !a.consumed
               && a.child in frames && frames[a.child].state.FrameEnded?)
  }

  ghost predicate WaitsSettle(frames: map<JobId, Frame>, a: map<JobId, seq<Wait>>, b: map<JobId, seq<Wait>>) {
    && b.Keys == a.Keys
    && forall p :: p in a ==> |b[p]| == |a[p]| && forall k :: 0 <= k < |a[p]| ==> WaitSettles(frames, a[p][k], b[p][k])
  }

  /** The scan's progress: every table the gates read is as it was, for the rows to come. */
  ghost predicate Scanned(s0: Store, s: Store, rest: seq<JobId>) {
    && s.slots == s0.slots && s.frames == s0.frames && s.preparations == s0.preparations && s.jobs.Keys == s0.jobs.Keys
    && WaitsSettle(s0.frames, s0.waits, s.waits)
    && forall id :: id in rest ==> id in s0.jobs && s.jobs[id] == s0.jobs[id]
  }

  /** What the scan may do to a job it does not start: retire it, or requeue a parent whose
      children finished. */
  ghost predicate PassedOver(s: Store, id: JobId, d: Dispatch, job: Job)
    requires id in s.jobs
  {
    || job == s.jobs[id]
    || (Exhausted(s, id, d.now) && job.status.Terminal() && job.reason == AttemptOrDeadlineExhausted
        && job.attempt == s.jobs[id].attempt && SameLog(s.jobs[id], job))
    || (ReadyToResume(s, id) && job == s.jobs[id].(status := QueuedAfterEviction, available := d.now, updated := d.now))
  }

  lemma SettledReady(s0: Store, s: Store, p: JobId, g: int)
    requires s.frames == s0.frames && WaitsSettle(s0.frames, s0.waits, s.waits)
    ensures WaitCount(s, p) == WaitCount(s0, p)
    ensures OutcomeReady(s, p, g) == OutcomeReady(s0, p, g)
  {
    if HasWait(s0, p, g) {
      assert WaitSettles(s0.frames, s0.waits[p][g - 1], s.waits[p][g - 1]);
    }
  }

  /** A queued child's gate does not notice that other waits became ready. */
  lemma SettledEligible(s0: Store, s: Store, id: JobId, now: Time)
    requires TreeInv(s0) && s.frames == s0.frames && WaitsSettle(s0.frames, s0.waits, s.waits)
    ensures Eligible(s, id, now) == Eligible(s0, id, now)
  {
    if id in s0.frames && s0.frames[id].parent.Some? && s0.frames[id].state.FrameQueued? {
      var p := s0.frames[id].parent.value;
      SettledReady(s0, s, p, 1) by { hide TreeInv; }
      ParentWaitsForChild(s0, id);
      hide TreeInv, OutcomeReady;
      assert p in s.waits && |s.waits[p]| == 1;
      assert WaitSettles(s0.frames, s0.waits[p][0], s.waits[p][0]);
    } else {
      hide TreeInv, WaitsSettle;
    }
  }

  lemma ParentWaitsForChild(s: Store, id: JobId)
    requires TreeInv(s) && id in s.frames && s.frames[id].parent.Some?
    ensures s.frames[id].parent.value in s.waits
    ensures |s.waits[s.frames[id].parent.value]| == 1 && s.waits[s.frames[id].parent.value][0].child == id
  {
    hide FramesMatchWaits, FramesMatchJobs, DepthBounded, NoOrphans, OnePreparation;
  }

  lemma GatesUnmoved(s0: Store, s: Store, rest: seq<JobId>, id: JobId, d: Dispatch)
    requires TreeInv(s0) && Scanned(s0, s, rest) && id in rest
    ensures id in s0.jobs && id in s.jobs
    ensures FrameGate(s, id, d.now) == FrameGate(s0, id, d.now)
    ensures DispatchGate(s, id, d) == DispatchGate(s0, id, d)
    ensures Exhausted(s, id, d.now) == Exhausted(s0, id, d.now)
    ensures Passes(s, id, d) == Passes(s0, id, d)
    ensures ReadyToResume(s, id) == ReadyToResume(s0, id)
  {
    SettledReady(s0, s, id, WaitCount(s0, id)) by { hide TreeInv; }
    SettledEligible(s0, s, id, d.now) by { hide WaitsSettle, TreeInv; }
    hide TreeInv, WaitsSettle, Eligible, OutcomeReady, WaitCount;
    assert AutomaticSlots(s) == AutomaticSlots(s0);
    assert Automatic(s, id) == Automatic(s0, id);
    hide AutomaticSlots, Automatic;
  }

  lemma RequeueScans(s0: Store, s: Store, rest: seq<JobId>, d: Dispatch)
    requires Scanned(s0, s, rest) && rest != [] && rest[0] !in rest[1..] && Live(s, rest[0])
    ensures Scanned(s0, Requeue(s, rest[0], d.now), rest[1..])
  {
    var id := rest[0];
    var t := Requeue(s, id, d.now);
    RequeueShape(s, id, d.now) by { hide Scanned, Requeue; }
    RequeueSettles(s, id, d.now) by { hide Scanned; }
    SettlesTwice(s0.frames, s0.waits, s.waits, t.waits) by { hide Requeue; }
    hide Requeue, WaitsSettle;
  }

  lemma RequeueSettles(s: Store, id: JobId, now: Time)
    requires Live(s, id)
    ensures WaitsSettle(s.frames, s.waits, Requeue(s, id, now).waits)
  {
    hide OutcomeReady, MarkReady, WaitCount;
    if ReadyToResume(s, id) {
      MarkReadySettles(s, id, WaitCount(s, id));
    }
  }

  lemma MarkReadySettles(s: Store, p: JobId, g: int)
    ensures WaitsSettle(s.frames, s.waits, MarkReady(s, p, g).waits)
  {
    hide WaitsSettle, WaitSettles;
    SettlesItself(s.frames, s.waits);
    if HasWait(s, p, g) && !WaitAt(s, p, g).state.WaitRetired? && !WaitAt(s, p, g).consumed
       && ChildEnded(s, WaitAt(s, p, g)) {
      var w := WaitAt(s, p, g).(state := WaitReady);
      assert MarkReady(s, p, g).waits == s.waits[p := s.waits[p][g - 1 := w]];
      assert WaitSettles(s.frames, s.waits[p][g - 1], w) by { SettlesReady(s, p, g); }
      hide MarkReady;
      OneWaitSettles(s.frames, s.waits, p, g - 1, w);
    }
  }

  lemma SettlesReady(s: Store, p: JobId, g: int)
    requires HasWait(s, p, g) && !WaitAt(s, p, g).state.WaitRetired? && !WaitAt(s, p, g).consumed
    requires ChildEnded(s, WaitAt(s, p, g))
    ensures WaitSettles(s.frames, s.waits[p][g - 1], WaitAt(s, p, g).(state := WaitReady))
  {
  }

  lemma SettlesItself(frames: map<JobId, Frame>, a: map<JobId, seq<Wait>>)
    ensures WaitsSettle(frames, a, a)
  {
  }

  lemma OneWaitSettles(frames: map<JobId, Frame>, a: map<JobId, seq<Wait>>, p: JobId, k: int, w: Wait)
    requires p in a && 0 <= k < |a[p]| && WaitSettles(frames, a[p][k], w)
    ensures WaitsSettle(frames, a, a[p := a[p][k := w]])
  {
  }

  /** What the scan's progress says about the next row. */
  lemma ScannedHead(s0: Store, s: Store, rest: seq<JobId>)
    requires Scanned(s0, s, rest) && rest != []
    ensures rest[0] in s0.jobs && s.jobs.Keys == s0.jobs.Keys && s.jobs[rest[0]] == s0.jobs[rest[0]]
    ensures Scanned(s0, s, rest[1..])
  {
    hide WaitsSettle;
    var id := rest[0];
    assert id in rest;
    assert id in s0.jobs && s.jobs[id] == s0.jobs[id];
  }

  lemma SettlesTwice(frames: map<JobId, Frame>, a: map<JobId, seq<Wait>>, b: map<JobId, seq<Wait>>, c: map<JobId,
                     seq<Wait>>)
    requires WaitsSettle(frames, a, b) && WaitsSettle(frames, b, c)
    ensures WaitsSettle(frames, a, c)
  {
    forall p, k | p in a && 0 <= k < |a[p]|
      ensures WaitSettles(frames, a[p][k], c[p][k])
    {
      assert WaitSettles(frames, a[p][k], b[p][k]) && WaitSettles(frames, b[p][k], c[p][k]);
    }
  }

  lemma RetireScans(s0: Store, s: Store, id: JobId, rest: seq<JobId>, now: Time)
    requires Scanned(s0, s, rest) && id in s.jobs && id !in rest
    ensures Scanned(s0, Retire(s, id, now), rest)
  {
    hide WaitsSettle;
  }

  lemma RetiredRow(s0: Store, s: Store, id: JobId, d: Dispatch)
    requires id in s0.jobs && id in s.jobs && SameLog(s0.jobs[id], s.jobs[id])
    requires s.jobs[id].attempt == s0.jobs[id].attempt
    requires Exhausted(s0, id, d.now)
    ensures id in Retire(s, id, d.now).jobs && PassedOver(s0, id, d, Retire(s, id, d.now).jobs[id])
    ensures forall x :: x in s.jobs && x != id ==>
      x in Retire(s, id, d.now).jobs && Retire(s, id, d.now).jobs[x] == s.jobs[x]
  {
    hide ReadyToResume;
  }

  /** One row that is not started: it did not pass, it was passed over, and the scan can go on. */
  lemma RowPassedOver(cfg: Config, s0: Store, s: Store, rest: seq<JobId>, d: Dispatch)
    requires TreeInv(s0) && Scanned(s0, s, rest) && rest != [] && rest[0] !in rest[1..]
    requires !ScanRow(cfg, s, rest[0], d).1
    ensures var t := ScanRow(cfg, s, rest[0], d).0;
      && !Passes(s0, rest[0], d) && Scanned(s0, t, rest[1..])
      && PassedOver(s0, rest[0], d, t.jobs[rest[0]])
      && forall x :: x in s0.jobs && x != rest[0] ==> t.jobs[x] == s.jobs[x]
  {
    hide TreeInv, Requeue, Scanned, FrameGate, DispatchGate, Exhausted, PassedOver, Retire, ReadyToResume, Start;
    var id := rest[0];
    assert id in rest;
    ScannedHead(s0, s, rest);
    GatesUnmoved(s0, s, rest, id, d);
    UntouchedPassedOver(s0, id, d);
    if Live(s, id) && FrameGate(s, id, d.now) {
      var s1 := Requeue(s, id, d.now);
      RequeueScans(s0, s, rest, d);
      RequeueShape(s, id, d.now);
      RequeuedPassedOver(s0, s, id, d);
      if DispatchGate(s, id, d) && Exhausted(s, id, d.now) {
        RetireScans(s0, s1, id, rest[1..], d.now);
        RetiredRow(s0, s1, id, d);
      }
    }
  }

  lemma UntouchedPassedOver(s: Store, id: JobId, d: Dispatch)
    requires id in s.jobs
    ensures PassedOver(s, id, d, s.jobs[id])
  {
    hide Exhausted, ReadyToResume, SameLog;
  }

  lemma RequeuedPassedOver(s0: Store, s: Store, id: JobId, d: Dispatch)
    requires id in s0.jobs && Live(s, id) && s.jobs[id] == s0.jobs[id] && ReadyToResume(s, id) == ReadyToResume(s0, id)
    ensures var t := Requeue(s, id, d.now);
      id in t.jobs && PassedOver(s0, id, d, t.jobs[id]) && SameLog(s0.jobs[id], t.jobs[id])
        && t.jobs[id].attempt == s0.jobs[id].attempt
  {
    hide Exhausted, Requeue, ReadyToResume;
    RequeueRow(s, id, d.now);
  }

  lemma RequeueRow(s: Store, id: JobId, now: Time)
    requires Live(s, id)
    ensures id in Requeue(s, id, now).jobs
    ensures Requeue(s, id, now).jobs[id] == if ReadyToResume(s, id)
              then s.jobs[id].(status := QueuedAfterEviction, available := now, updated := now) else s.jobs[id]
  {
    hide ReadyToResume;
  }

  lemma StartedRow(cfg: Config, s0: Store, s: Store, rest: seq<JobId>, d: Dispatch)
    requires TreeInv(s0) && Scanned(s0, s, rest) && rest != [] && ScanRow(cfg, s, rest[0], d).1
    ensures var t := ScanRow(cfg, s, rest[0], d).0;
      && Passes(s0, rest[0], d) && rest[0] in t.jobs
      && t.jobs[rest[0]].status.Running? && t.jobs[rest[0]].attempt == s0.jobs[rest[0]].attempt + 1
      && OwnsSlot(t, rest[0], t.jobs[rest[0]].attempt)
      && forall x :: x in s0.jobs && x != rest[0] ==> x in t.jobs && t.jobs[x] == s.jobs[x]
  {
    hide TreeInv, Scanned, FrameGate, DispatchGate, Exhausted, Requeue, ReadyToResume;
    var id := rest[0];
    assert id in rest;
    ScannedHead(s0, s, rest);
    GatesUnmoved(s0, s, rest, id, d);
    RequeueShape(s, id, d.now);
    RequeueRow(s, id, d.now);
  }

  /** No job in the list passes before the k-th, and the outcome of scanning it. */
  ghost predicate Selected(s0: Store, rows: seq<JobId>, d: Dispatch, started: Option<JobId>) {
    match started
    case None => forall k :: 0 <= k < |rows| ==> rows[k] in s0.jobs && !Passes(s0, rows[k], d)
    case Some(id) =>
      exists k :: 0 <= k < |rows| && rows[k] == id && id in s0.jobs && Passes(s0, id, d)
                  && forall j :: 0 <= j < k ==> rows[j] in s0.jobs && !Passes(s0, rows[j], d)
  }

  ghost predicate OthersPassedOver(s0: Store, t: Store, d: Dispatch, started: Option<JobId>) {
    forall x :: x in s0.jobs && started != Some(x) ==> x in t.jobs && PassedOver(s0, x, d, t.jobs[x])
  }

  lemma {:induction false} ScanSelects(cfg: Config, s0: Store, s: Store, rows: seq<JobId>, d: Dispatch)
    requires TreeInv(s0) && Scanned(s0, s, rows) && Distinct(rows)
    requires forall x :: x in s0.jobs ==> x in s.jobs && PassedOver(s0, x, d, s.jobs[x])
    ensures var (t, started) := Scan(cfg, s, rows, d);
      && Selected(s0, rows, d, started) && OthersPassedOver(s0, t, d, started)
      && (started.Some? ==> started.value in t.jobs && t.jobs[started.value].status.Running?
                            && t.jobs[started.value].attempt == s0.jobs[started.value].attempt + 1)
    decreases |rows|
  {
    hide TreeInv, Scanned, PassedOver, Passes, ScanRow;
    if rows != [] {
      var id := rows[0];
      ScannedHead(s0, s, rows);
      var (s1, began) := ScanRow(cfg, s, id, d);
      if began {
        StartedRow(cfg, s0, s, rows, d);
        assert rows[0] == id;
      } else {
        DistinctTail(rows);
        RowPassedOver(cfg, s0, s, rows, d);
        ScannedKeys(s0, s1, rows[1..]);
        ScanSelects(cfg, s0, s1, rows[1..], d);
        SelectedShift(s0, rows, d, Scan(cfg, s1, rows[1..], d).1);
      }
    }
  }

  lemma ScannedKeys(s0: Store, s: Store, rest: seq<JobId>)
    requires Scanned(s0, s, rest)
    ensures s.jobs.Keys == s0.jobs.Keys
  {
  }

  lemma DistinctTail(rows: seq<JobId>)
    requires Distinct(rows) && rows != []
    ensures rows[0] !in rows[1..] && Distinct(rows[1..])
  {
  }

  lemma SelectedShift(s0: Store, rows: seq<JobId>, d: Dispatch, started: Option<JobId>)
    requires rows != [] && rows[0] in s0.jobs && !Passes(s0, rows[0], d) && Selected(s0, rows[1..], d, started)
    ensures Selected(s0, rows, d, started)
  {
    hide Passes;
    var rest := rows[1..];
    assert forall j :: 1 <= j < |rows| ==> rows[j] == rest[j - 1];
    if started.Some? {
      var k :| 0 <= k < |rest| && rest[k] == started.value && Passes(s0, started.value, d)
               && forall j :: 0 <= j < k ==> rest[j] in s0.jobs && !Passes(s0, rest[j], d);
      assert rows[k + 1] == started.value;
      assert forall j :: 0 <= j < k + 1 ==> rows[j] in s0.jobs && !Passes(s0, rows[j], d);
    }
  }

  lemma BeforeIrreflexive(s: Store, rows: seq<JobId>)
    requires DispatchOrder(s, rows)
    ensures Distinct(rows)
  {
    forall i, j | 0 <= i < j < |rows|
      ensures rows[i] != rows[j]
    {
      assert Before(s, rows[i], rows[j]);
    }
  }

  lemma ScanBegins(s: Store, rows: seq<JobId>, d: Dispatch)
    requires TreeInv(s) && DispatchOrder(s, rows)
    ensures TreeInv(Reclaim(s, d)) && Distinct(rows) && Scanned(Reclaim(s, d), Reclaim(s, d), rows)
    ensures Reclaim(s, d).jobs == s.jobs
    ensures forall x :: x in s.jobs ==> PassedOver(Reclaim(s, d), x, d, s.jobs[x])
  {
    hide TreeInv, Before, Reclaimable, Exhausted, ReadyToResume;
    var s0 := Reclaim(s, d);
    BeforeIrreflexive(s, rows);
    assert SameTree(s, s0);
    SameTreeKeeps(s, s0);
    assert Scanned(s0, s0, rows);
  }

  lemma SelectedIsLeast(s: Store, s0: Store, rows: seq<JobId>, d: Dispatch, started: Option<JobId>)
    requires DispatchOrder(s, rows) && s0.jobs == s.jobs && Selected(s0, rows, d, started)
    ensures started.None? ==> forall id :: id in s.jobs ==> !Passes(s0, id, d)
    ensures started.Some? ==>
      && started.value in s.jobs && Passes(s0, started.value, d)
      && forall id :: id in s.jobs && id != started.value && Passes(s0, id, d) ==> Before(s, started.value, id)
  {
    hide Passes, Before;
    if started.Some? {
      var k :| 0 <= k < |rows| && rows[k] == started.value && Passes(s0, started.value, d)
               && forall j :: 0 <= j < k ==> rows[j] in s0.jobs && !Passes(s0, rows[j], d);
      forall id | id in s.jobs && id != started.value && Passes(s0, id, d)
        ensures Before(s, started.value, id)
      {
        var j :| 0 <= j < |rows| && rows[j] == id;
        assert Before(s, rows[k], rows[j]);
      }
    } else {
      forall id | id in s.jobs
        ensures !Passes(s0, id, d)
      {
        var j :| 0 <= j < |rows| && rows[j] == id;
      }
    }
  }

  /** The claim's whole contract, at the instant after reclaiming dead slots. */
  lemma ClaimIsCorrectSelection(cfg: Config, s: Store, rows: seq<JobId>, d: Dispatch)
    requires TreeInv(s) && DispatchOrder(s, rows)
    ensures var s0 := Reclaim(s, d);
      var (t, started) := Claim(cfg, s, rows, d);
      && s0.jobs == s.jobs
      && (started.None? ==> forall id :: id in s.jobs ==> !Passes(s0, id, d))
      && (started.Some? ==>
            && started.value in s.jobs && Passes(s0, started.value, d)
            && (forall id :: id in s.jobs && id != started.value && Passes(s0, id, d) ==> Before(s, started.value, id))
            && started.value in t.jobs && t.jobs[started.value].status.Running?
            && t.jobs[started.value].attempt == s.jobs[started.value].attempt + 1)
      && (forall id :: id in s.jobs && started != Some(id) ==> id in t.jobs && PassedOver(s0, id, d, t.jobs[id]))
  {
    hide TreeInv, Scanned, PassedOver, Passes, Before, Reclaim, Scan, DispatchOrder, Selected, Distinct;
    var s0 := Reclaim(s, d);
    ScanBegins(s, rows, d);
    ScanSelects(cfg, s0, s0, rows, d);
    SelectedIsLeast(s, s0, rows, d, Scan(cfg, s0, rows, d).1);
  }

  // ----- the dispatch order --------------------------------------------------------

  lemma BeforeIsTotalOrder(s: Store, a: JobId, b: JobId, c: JobId)
    requires a in s.jobs && b in s.jobs && c in s.jobs
    ensures a != b ==> Before(s, a, b) || Before(s, b, a)
    ensures !(Before(s, a, b) && Before(s, b, a))
    ensures Before(s, a, b) && Before(s, b, c) ==> Before(s, a, c)
  {
    hide Automatic;
  }
}
