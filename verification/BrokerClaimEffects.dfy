/** What a claim does, said of the rows themselves: which slots it takes back, which job it may
    begin, and what becomes of the one it begins and of those it passes. */
module BrokerClaimEffects {
  import opened Prelude
  import opened BrokerModel
  import opened BrokerSteps
  import opened BrokerInvariant
  import opened BrokerTree
  import opened BrokerTreeSteps
  import opened BrokerCalm
  import opened BrokerCalmSteps
  import opened BrokerStarts
  import opened BrokerClaims
  import opened BrokerSafety
  import opened BrokerSelection
  import opened BrokerEndings

  // ----- slots taken back ------------------------------------------------------------

  /** The lease is over, the cleanup has not failed, and no living process is its owner. */
  ghost predicate SlotOver(slot: Slot, d: Dispatch) {
    slot.lease <= d.now && !slot.cleanupFailed && forall p :: p in d.alive ==> slot.owner != Some(p)
  }

  /** The store after those slots were deleted. */
  ghost predicate TakenBack(s: Store, s0: Store, d: Dispatch) {
    && s0 == s.(slots := s0.slots)
    && forall id :: (id in s0.slots <==> id in s.slots && !SlotOver(s.slots[id], d))
                    && (id in s0.slots ==> s0.slots[id] == s.slots[id])
  }

  lemma ReclaimTakesBack(s: Store, d: Dispatch)
    ensures TakenBack(s, Reclaim(s, d), d)
  {
    forall id | id in s.slots
      ensures Reclaimable(s.slots[id], d) <==> SlotOver(s.slots[id], d)
    {
    }
    hide SlotOver, Reclaimable;
  }

  // ----- the gates -------------------------------------------------------------------

  /** The frame lets its job run: a root or a child that ran before; a child whose parent is
      asleep with its slot released; a parent whose child's result is there. */
  ghost predicate FrameLets(s: Store, id: JobId, now: Time)
    requires id in s.frames
  {
    match s.frames[id].state
    case FrameRunning => true
    case FrameWaiting => false
    case FrameEnded(_) => false
    case FrameSuspended => ChildResultThere(s, id)
    case FrameQueued =>
      s.frames[id].parent.Some? ==>
        var p := s.frames[id].parent.value;
        && p in s.frames && s.frames[p].state == FrameSuspended
        && p in s.waits && |s.waits[p]| == 1 && s.waits[p][0].state == WaitOpen && s.waits[p][0].released
        && now < s.frames[id].deadline
  }

  ghost predicate ChildResultThere(s: Store, id: JobId) {
    && id in s.waits && |s.waits[id]| == 1 && s.waits[id][0].state != WaitRetired
    && (s.waits[id][0].consumed
        || (s.waits[id][0].child in s.frames && s.frames[s.waits[id][0].child].state.FrameEnded?))
  }

  ghost predicate InAutomaticTree(s: Store, id: JobId) {
    id in s.frames && s.frames[id].root in s.frames && s.frames[s.frames[id].root].automatic
  }

  /** Policy, preflight and the host allow it, it holds no slot, and an automatic tree has its
      preparation and no other automatic slot. */
  ghost predicate Offered(s: Store, id: JobId, d: Dispatch)
    requires id in s.frames
  {
    && id in d.allowed && id in d.executable && (d.preflight.Some? ==> id in d.preflight.value) && id !in s.slots
    && (InAutomaticTree(s, id) ==>
          s.frames[id].root in s.preparations && forall x :: x in s.slots ==> !InAutomaticTree(s, x))
  }

  ghost predicate WornOut(s: Store, id: JobId, now: Time)
    requires id in s.jobs && id in s.frames
  {
    (s.jobs[id].deadline.Some? && now >= s.jobs[id].deadline.value) || s.frames[id].failures >= 3
  }

  /** Everything a job needs to be begun now. */
  ghost predicate MayBegin(s: Store, id: JobId, d: Dispatch) {
    && id in s.jobs && !s.jobs[id].status.Terminal() && id in s.frames
    && FrameLets(s, id, d.now) && Offered(s, id, d) && !WornOut(s, id, d.now)
    && d.now >= s.jobs[id].available && |s.slots| < 2
  }

  lemma FrameGateIs(s: Store, id: JobId, now: Time)
    requires TreeInv(s) && id in s.frames
    ensures FrameGate(s, id, now) <==> FrameLets(s, id, now)
    ensures ReadyToResume(s, id) <==> s.frames[id].state == FrameSuspended && FrameLets(s, id, now)
  {
    assert forall p :: p in s.waits ==> |s.waits[p]| == 1 by {
      hide EdgesMatchWaits, FramesMatchWaits, FramesMatchJobs, DepthBounded, Rooted, NoOrphans, OnePreparation;
    }
    hide TreeInv;
  }

  lemma DispatchGateIs(s: Store, id: JobId, d: Dispatch)
    requires id in s.frames
    ensures DispatchGate(s, id, d) <==> Offered(s, id, d)
  {
    assert |AutomaticSlots(s)| < 1 <==> AutomaticSlots(s) == {};
    assert AutomaticSlots(s) == {} <==> forall x :: x in s.slots ==> !InAutomaticTree(s, x) by {
      if x :| x in s.slots && InAutomaticTree(s, x) {
        assert x in AutomaticSlots(s);
      }
    }
  }

  lemma PassesIs(s: Store, id: JobId, d: Dispatch)
    requires TreeInv(s) && id in s.jobs
    ensures Passes(s, id, d) <==> MayBegin(s, id, d)
  {
    LiveHaveFrames(s);
    if Live(s, id) {
      FrameGateIs(s, id, d.now);
      DispatchGateIs(s, id, d);
      hide TreeInv, FrameGate, FrameLets, DispatchGate, Offered;
    } else {
      hide *;
      assert Passes(s, id, d) ==> Live(s, id) by { PassesLive(s, id, d); }
      assert MayBegin(s, id, d) ==> Live(s, id) by { BeginLive(s, id, d); }
    }
  }

  lemma PassesLive(s: Store, id: JobId, d: Dispatch)
    requires id in s.jobs
    ensures Passes(s, id, d) ==> Live(s, id)
  {
    hide FrameGate, DispatchGate;
  }

  lemma BeginLive(s: Store, id: JobId, d: Dispatch)
    ensures MayBegin(s, id, d) ==> Live(s, id)
  {
    hide FrameLets, Offered;
  }

  /** Public jobs before automatic ones, then the least recently touched, then the smaller id. */
  ghost predicate Earlier(s: Store, a: JobId, b: JobId)
    requires a in s.jobs && b in s.jobs
  {
    if InAutomaticTree(s, a) != InAutomaticTree(s, b) then InAutomaticTree(s, b)
    else if s.jobs[a].updated != s.jobs[b].updated then s.jobs[a].updated < s.jobs[b].updated
    else a < b
  }

  lemma BeforeIs(s: Store, a: JobId, b: JobId)
    requires a in s.jobs && b in s.jobs
    ensures Before(s, a, b) <==> Earlier(s, a, b)
  {
  }

  // ----- the jobs the claim passes ----------------------------------------------------

  /** A suspended parent whose child's result is there goes back to the queue. */
  ghost function Resumed(s: Store, id: JobId, now: Time): Job
    requires id in s.jobs && id in s.frames
  {
    if s.frames[id].state == FrameSuspended && FrameLets(s, id, now)
    then s.jobs[id].(status := QueuedAfterEviction, available := now, updated := now) else s.jobs[id]
  }

  /** A job that is passed: retired if it was offered but is worn out, otherwise at most
      resumed. */
  ghost function Passed(s: Store, id: JobId, d: Dispatch): Job
    requires id in s.jobs
  {
    if s.jobs[id].status.Terminal() || id !in s.frames then s.jobs[id]
    else if FrameLets(s, id, d.now) && Offered(s, id, d) && WornOut(s, id, d.now) then
      Resumed(s, id, d.now).(status := if s.jobs[id].findings == [] then Failed else Partial,
                             reason := AttemptOrDeadlineExhausted, lease := 0.0, updated := d.now)
    else Resumed(s, id, d.now)
  }

  ghost function Begun(cfg: Config, s: Store, id: JobId, d: Dispatch): Job
    requires id in s.jobs && id in s.frames
  {
    Resumed(s, id, d.now).(status := Running, attempt := s.jobs[id].attempt + 1, lease := d.now + cfg.leaseSeconds,
                           updated := d.now)
  }

  /** Only records, the readiness of waits and the index differ. */
  ghost predicate OnlyJobs(s: Store, t: Store) {
    t == s.(jobs := t.jobs, waits := t.waits, index := t.index)
  }

  ghost predicate OthersAsTheyWere(s: Store, t: Store, id: JobId) {
    t.jobs.Keys == s.jobs.Keys && forall x :: x in s.jobs && x != id ==> t.jobs[x] == s.jobs[x]
  }

  lemma RequeuedIs(s: Store, id: JobId, now: Time)
    requires Live(s, id)
    ensures OnlyJobs(s, Requeue(s, id, now)) && OthersAsTheyWere(s, Requeue(s, id, now), id)
  {
    hide ReadyToResume, MarkReady;
    if ReadyToResume(s, id) {
      MarkReadyWaits(s, id, WaitCount(s, id));
    }
  }

  lemma RetiredIs(s: Store, id: JobId, now: Time)
    requires id in s.jobs
    ensures var t := Retire(s, id, now);
      && OnlyJobs(s, t) && OthersAsTheyWere(s, t, id)
      && t.jobs[id] == s.jobs[id].(status := if s.jobs[id].findings == [] then Failed else Partial,
                                   reason := AttemptOrDeadlineExhausted, lease := 0.0, updated := now)
  {
    hide TrimIndex;
    TrimOnlyIndex(s.(jobs := s.jobs[id := RetiredJob(s.jobs[id], now)]));
  }

  /** What the scan's progress means for the next row. */
  lemma HeadGates(s0: Store, s: Store, rest: seq<JobId>, d: Dispatch)
    requires TreeInv(s0) && Scanned(s0, s, rest) && rest != []
    ensures var id := rest[0];
      && id in s0.jobs && id in s.jobs && s.jobs[id] == s0.jobs[id]
      && (Live(s0, id) ==>
            && id in s0.frames && s.frames == s0.frames && s.slots == s0.slots
            && (FrameGate(s, id, d.now) <==> FrameLets(s0, id, d.now))
            && (DispatchGate(s, id, d) <==> Offered(s0, id, d))
            && (Exhausted(s, id, d.now) <==> WornOut(s0, id, d.now))
            && (ReadyToResume(s, id) <==> s0.frames[id].state == FrameSuspended && FrameLets(s0, id, d.now)))
  {
    var id := rest[0];
    LiveHaveFrames(s0);
    ScannedHead(s0, s, rest) by { hide TreeInv; }
    GatesUnmoved(s0, s, rest, id, d) by { hide TreeInv, Scanned; }
    if Live(s0, id) {
      FrameGateIs(s0, id, d.now);
      DispatchGateIs(s0, id, d);
      assert Exhausted(s0, id, d.now) <==> WornOut(s0, id, d.now) by { hide TreeInv; }
    }
    assert s.frames == s0.frames && s.slots == s0.slots by { hide WaitsSettle, TreeInv; }
    hide *;
  }

  lemma PassedRow(cfg: Config, s0: Store, s: Store, rest: seq<JobId>, d: Dispatch)
    requires TreeInv(s0) && Scanned(s0, s, rest) && rest != []
    requires rest[0] in s.jobs && !ScanRow(cfg, s, rest[0], d).1
    ensures var t := ScanRow(cfg, s, rest[0], d).0;
      && rest[0] in s0.jobs && rest[0] in t.jobs && t.jobs[rest[0]] == Passed(s0, rest[0], d)
      && OnlyJobs(s, t) && OthersAsTheyWere(s, t, rest[0])
  {
    var id := rest[0];
    HeadGates(s0, s, rest, d);
    hide TreeInv, Scanned, FrameGate, FrameLets, DispatchGate, Offered, Exhausted, WornOut, Requeue, Retire,
      ReadyToResume, Start;
    if Live(s, id) && FrameGate(s, id, d.now) {
      RequeueRow(s, id, d.now);
      RequeuedIs(s, id, d.now);
      var s1 := Requeue(s, id, d.now);
      if DispatchGate(s, id, d) && Exhausted(s, id, d.now) {
        RetiredIs(s1, id, d.now);
      }
    }
  }

  /** A job begins: its record, its frame, and a slot for this attempt and this dispatcher. */
  ghost predicate Begins(cfg: Config, s: Store, t: Store, id: JobId, d: Dispatch)
    requires id in s.jobs && id in s.frames
  {
    && t == s.(jobs := t.jobs, waits := t.waits, index := t.index, frames := t.frames, slots := t.slots,
      workers := t.workers)
    && id in t.jobs && t.jobs[id] == Begun(cfg, s, id, d)
    && t.slots == s.slots[id := Slot(s.jobs[id].attempt + 1, d.now + cfg.leaseSeconds, d.owner, false)]
    && t.frames == s.frames[id := s.frames[id].(state := FrameRunning)]
    && t.workers == s.workers + {(id, s.jobs[id].attempt + 1)}
  }

  lemma BegunRow(cfg: Config, s0: Store, s: Store, rest: seq<JobId>, d: Dispatch)
    requires TreeInv(s0) && Scanned(s0, s, rest) && rest != []
    requires OnlyJobs(s0, s)
    requires rest[0] in s.jobs && ScanRow(cfg, s, rest[0], d).1
    ensures var t := ScanRow(cfg, s, rest[0], d).0;
      && rest[0] in s0.jobs && rest[0] in s0.frames && Begins(cfg, s0, t, rest[0], d) && OthersAsTheyWere(s, t, rest[0])
  {
    var id := rest[0];
    HeadGates(s0, s, rest, d);
    ScanRowStarts(cfg, s, id, d);
    LiveHaveFrames(s0);
    RequeueRow(s, id, d.now);
    RequeuedIs(s, id, d.now);
    ResumedIs(s0, s, id, d);
    var s1 := Requeue(s, id, d.now);
    OnlyJobsTwice(s0, s, s1);
    StartBegins(cfg, s0, s1, id, d);
    StartTouches(cfg, s, s1, id, d);
    hide *;
  }

  lemma ScanRowStarts(cfg: Config, s: Store, id: JobId, d: Dispatch)
    requires id in s.jobs && ScanRow(cfg, s, id, d).1
    ensures Live(s, id) && id in Requeue(s, id, d.now).jobs
    ensures ScanRow(cfg, s, id, d).0 == Start(cfg, Requeue(s, id, d.now), id, d)
  {
    hide FrameGate, DispatchGate, Exhausted, Requeue, Start;
    RequeueRow(s, id, d.now);
  }

  lemma ResumedIs(s0: Store, s: Store, id: JobId, d: Dispatch)
    requires id in s0.jobs && id in s.jobs && s.jobs[id] == s0.jobs[id] && id in s0.frames && Live(s, id)
    requires ReadyToResume(s, id) <==> s0.frames[id].state == FrameSuspended && FrameLets(s0, id, d.now)
    requires id in Requeue(s, id, d.now).jobs
    ensures Requeue(s, id, d.now).jobs[id] == Resumed(s0, id, d.now)
  {
    hide ReadyToResume, FrameLets, Requeue;
    RequeueRow(s, id, d.now);
  }

  lemma StartBegins(cfg: Config, s0: Store, s1: Store, id: JobId, d: Dispatch)
    requires id in s0.jobs && id in s0.frames && id in s1.jobs && s1.jobs[id] == Resumed(s0, id, d.now)
    requires OnlyJobs(s0, s1)
    ensures Begins(cfg, s0, Start(cfg, s1, id, d), id, d)
  {
    hide FrameLets;
  }

  lemma StartTouches(cfg: Config, s: Store, s1: Store, id: JobId, d: Dispatch)
    requires id in s1.jobs && OthersAsTheyWere(s, s1, id) && id in s.jobs
    ensures OthersAsTheyWere(s, Start(cfg, s1, id, d), id)
  {
  }

  // ----- the whole scan ---------------------------------------------------------------

  /** The rows up to the `n`-th were passed, the `n`-th, if there is one, began, and nothing
      else was touched. */
  ghost predicate ScannedUpTo(cfg: Config, s0: Store, t: Store, rows: seq<JobId>, d: Dispatch, n: int) {
    && 0 <= n <= |rows| && t.jobs.Keys == s0.jobs.Keys && (forall k :: 0 <= k < |rows| ==> rows[k] in s0.jobs)
    && (forall k :: 0 <= k < n ==> t.jobs[rows[k]] == Passed(s0, rows[k], d))
    && (forall k :: n < k < |rows| ==> t.jobs[rows[k]] == s0.jobs[rows[k]])
    && (if n < |rows| then rows[n] in s0.frames && Begins(cfg, s0, t, rows[n], d) else OnlyJobs(s0, t))
  }

  /** The rest of the scan leaves every job that is not in the list as it was. */
  ghost predicate RestScanned(cfg: Config, s0: Store, s: Store, t: Store, rows: seq<JobId>, d: Dispatch, n: int) {
    && ScannedUpTo(cfg, s0, t, rows, d, n)
    && forall x :: x in s.jobs && x !in rows ==> x in t.jobs && t.jobs[x] == s.jobs[x]
  }

  lemma {:induction false} ScanIs(cfg: Config, s0: Store, s: Store, rows: seq<JobId>, d: Dispatch) returns (n: int)
    requires TreeInv(s0) && Scanned(s0, s, rows) && Distinct(rows) && OnlyJobs(s0, s)
    ensures var (t, started) := Scan(cfg, s, rows, d);
      && RestScanned(cfg, s0, s, t, rows, d, n)
      && started == (if n < |rows| then Some(rows[n]) else None)
    decreases |rows|
  {
    ScannedKeys(s0, s, rows) by { hide TreeInv; }
    if rows == [] {
      n := 0;
      hide TreeInv, Scanned;
    } else {
      ScannedHead(s0, s, rows) by { hide TreeInv; }
      DistinctTail(rows);
      var (s1, began) := ScanRow(cfg, s, rows[0], d);
      hide TreeInv, Scanned, ScanRow, Passed, Begins, OnlyJobs;
      if began {
        BegunRow(cfg, s0, s, rows, d);
        BeganFirst(cfg, s0, s, s1, rows, d);
        n := 0;
      } else {
        PassedRow(cfg, s0, s, rows, d);
        OnlyJobsTwice(s0, s, s1);
        RowPassedOver(cfg, s0, s, rows, d);
        var m := ScanIs(cfg, s0, s1, rows[1..], d);
        n := m + 1;
        PassedFirst(cfg, s0, s, s1, Scan(cfg, s1, rows[1..], d).0, rows, d, m);
      }
    }
  }

  lemma OnlyJobsTwice(a: Store, b: Store, c: Store)
    requires OnlyJobs(a, b) && OnlyJobs(b, c)
    ensures OnlyJobs(a, c)
  {
  }

  lemma BeganFirst(cfg: Config, s0: Store, s: Store, t: Store, rows: seq<JobId>, d: Dispatch)
    requires rows != [] && Scanned(s0, s, rows) && rows[0] in s0.jobs && rows[0] in s0.frames && rows[0] !in rows[1..]
    requires Begins(cfg, s0, t, rows[0], d) && OthersAsTheyWere(s, t, rows[0])
    ensures RestScanned(cfg, s0, s, t, rows, d, 0)
  {
    hide Begins, WaitsSettle, Passed;
    forall k | 0 < k < |rows|
      ensures rows[k] in s0.jobs && rows[k] in t.jobs && t.jobs[rows[k]] == s0.jobs[rows[k]]
    {
      assert rows[k] == rows[1..][k - 1];
    }
  }

  lemma PassedFirst(cfg: Config, s0: Store, s: Store, s1: Store, t: Store, rows: seq<JobId>, d: Dispatch, m: int)
    requires rows != [] && rows[0] in s0.jobs && rows[0] !in rows[1..] && rows[0] in s1.jobs
    requires s1.jobs[rows[0]] == Passed(s0, rows[0], d) && OthersAsTheyWere(s, s1, rows[0])
    requires RestScanned(cfg, s0, s1, t, rows[1..], d, m)
    ensures RestScanned(cfg, s0, s, t, rows, d, m + 1)
    ensures m + 1 < |rows| ==> rows[m + 1] == rows[1..][m]
  {
    hide Begins, Passed, OnlyJobs;
    var rest := rows[1..];
    assert forall k :: 0 <= k < |rest| ==> rest[k] == rows[k + 1];
    forall k | 0 <= k < m + 1
      ensures t.jobs[rows[k]] == Passed(s0, rows[k], d)
    {
      if k > 0 {
        assert rows[k] == rest[k - 1];
      }
    }
    forall k | m + 1 < k < |rows|
      ensures t.jobs[rows[k]] == s0.jobs[rows[k]]
    {
      assert rows[k] == rest[k - 1];
    }
    forall k | 0 <= k < |rows|
      ensures rows[k] in s0.jobs
    {
      if k > 0 {
        assert rows[k] == rest[k - 1];
      }
    }
  }

  // ----- the claim --------------------------------------------------------------------

  /** The job that begins may begin, and no earlier one may; those before it in the order were
      passed, those after it were not looked at. */
  ghost predicate ClaimDone(cfg: Config, s0: Store, t: Store, began: Option<JobId>, d: Dispatch) {
    && t.jobs.Keys == s0.jobs.Keys
    && match began
       case None =>
         OnlyJobs(s0, t) && forall id :: id in s0.jobs ==> !MayBegin(s0, id, d) && t.jobs[id] == Passed(s0, id, d)
       case Some(b) =>
         && MayBegin(s0, b, d) && b in s0.jobs && b in s0.frames && Begins(cfg, s0, t, b, d)
         && forall id :: id in s0.jobs && id != b ==>
              if Earlier(s0, id, b) then !MayBegin(s0, id, d) && t.jobs[id] == Passed(s0, id, d)
              else t.jobs[id] == s0.jobs[id]
  }

  lemma ClaimMeans(cfg: Config, s: Store, rows: seq<JobId>, d: Dispatch)
    requires TreeInv(s) && DispatchOrder(s, rows)
    ensures var (t, began) := Claim(cfg, s, rows, d);
      TakenBack(s, Reclaim(s, d), d) && ClaimDone(cfg, Reclaim(s, d), t, began, d)
  {
    var s0 := Reclaim(s, d);
    ReclaimTakesBack(s, d);
    ScanBegins(s, rows, d) by { hide TreeInv; }
    assert OnlyJobs(s0, s0);
    hide Scanned, Scan, Reclaim, TakenBack, RestScanned, DispatchOrder, Distinct, ClaimDone, TreeInv;
    var n := ScanIs(cfg, s0, s0, rows, d);
    ClaimIsCorrectSelection(cfg, s, rows, d);
    assert Claim(cfg, s, rows, d) == Scan(cfg, s0, rows, d);
    SelectionInOrder(cfg, s, s0, Scan(cfg, s0, rows, d).0, rows, d, n) by {
      assert s0 == s.(slots := s0.slots) by { TakenSlots(s, s0, d); }
      assert RestScanned(cfg, s0, s0, Scan(cfg, s0, rows, d).0, rows, d, n);
      ScannedOf(cfg, s0, s0, Scan(cfg, s0, rows, d).0, rows, d, n);
    }
  }

  lemma TakenSlots(s: Store, s0: Store, d: Dispatch)
    requires TakenBack(s, s0, d)
    ensures s0 == s.(slots := s0.slots)
  {
    hide SlotOver;
  }

  lemma ScannedOf(cfg: Config, s0: Store, s: Store, t: Store, rows: seq<JobId>, d: Dispatch, n: int)
    requires RestScanned(cfg, s0, s, t, rows, d, n)
    ensures ScannedUpTo(cfg, s0, t, rows, d, n)
  {
    hide ScannedUpTo;
  }

  lemma SelectionInOrder(cfg: Config, s: Store, s0: Store, t: Store, rows: seq<JobId>, d: Dispatch, n: int)
    requires TreeInv(s0) && s0 == s.(slots := s0.slots) && DispatchOrder(s, rows) && ScannedUpTo(cfg, s0, t, rows, d, n)
    requires n == |rows| ==> forall id :: id in s.jobs ==> !Passes(s0, id, d)
    requires n < |rows| ==>
      && rows[n] in s.jobs && Passes(s0, rows[n], d)
      && forall id :: id in s.jobs && id != rows[n] && Passes(s0, id, d) ==> Before(s, rows[n], id)
    ensures 0 <= n <= |rows| && ClaimDone(cfg, s0, t, if n < |rows| then Some(rows[n]) else None, d)
  {
    hide TreeInv, Passes, MayBegin, Before, Earlier, Begins, Passed, OnlyJobs;
    if n < |rows| {
      PassesIs(s0, rows[n], d);
    }
    forall id | id in s0.jobs && (n < |rows| ==> id != rows[n])
      ensures if n < |rows| then RowOfSelection(s0, t, id, rows[n], d)
        else !MayBegin(s0, id, d) && t.jobs[id] == Passed(s0, id, d)
    {
      PassesIs(s0, id, d);
      assert id in rows;
      var k :| 0 <= k < |rows| && rows[k] == id;
      if n < |rows| {
        OneOfSelection(cfg, s, s0, t, rows, d, n, k);
      }
    }
    hide DispatchOrder;
  }

  /** Before the one that began, passed; after it, untouched. */
  ghost predicate RowOfSelection(s0: Store, t: Store, id: JobId, began: JobId, d: Dispatch)
    requires id in s0.jobs && began in s0.jobs && id in t.jobs
  {
    if Earlier(s0, id, began) then !MayBegin(s0, id, d) && t.jobs[id] == Passed(s0, id, d)
    else t.jobs[id] == s0.jobs[id]
  }

  lemma OneOfSelection(cfg: Config, s: Store, s0: Store, t: Store, rows: seq<JobId>, d: Dispatch, n: int, k: int)
    requires s0 == s.(slots := s0.slots) && DispatchOrder(s, rows) && ScannedUpTo(cfg, s0, t, rows, d, n)
    requires 0 <= n < |rows| && 0 <= k < |rows| && rows[k] != rows[n]
    requires rows[n] in s.jobs && rows[k] in s.jobs && (Passes(s0, rows[k], d) <==> MayBegin(s0, rows[k], d))
    requires Passes(s0, rows[k], d) ==> Before(s, rows[n], rows[k])
    ensures rows[k] in t.jobs && RowOfSelection(s0, t, rows[k], rows[n], d)
  {
    InOrder(s, s0, rows, k, n);
    OrderAsymmetric(s0, rows[k], rows[n]);
    SameOrder(s, s0, rows[n], rows[k]);
    hide DispatchOrder, Passes, MayBegin, Before, Earlier, Begins, Passed, OnlyJobs;
  }

  lemma SameOrder(s: Store, s0: Store, a: JobId, b: JobId)
    requires s0 == s.(slots := s0.slots) && a in s.jobs && b in s.jobs
    ensures Before(s, a, b) <==> Earlier(s0, a, b)
  {
  }

  lemma InOrder(s: Store, s0: Store, rows: seq<JobId>, k: int, n: int)
    requires s0 == s.(slots := s0.slots) && DispatchOrder(s, rows) && 0 <= k < |rows| && 0 <= n < |rows|
    requires rows[k] != rows[n]
    ensures k < n <==> Earlier(s0, rows[k], rows[n])
  {
    SameOrder(s, s0, rows[k], rows[n]);
    SameOrder(s, s0, rows[n], rows[k]);
    OrderAsymmetric(s0, rows[k], rows[n]);
    hide Earlier, Before;
  }

  lemma OrderAsymmetric(s: Store, a: JobId, b: JobId)
    requires a in s.jobs && b in s.jobs && a != b
    ensures Earlier(s, a, b) <==> !Earlier(s, b, a)
  {
  }
}
