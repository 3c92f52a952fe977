/** What becomes of a result that was read, or will never be read, and how a slot is given back
    or repaired, said of the rows themselves. */
module BrokerSettlements {
  import opened Prelude
  import opened BrokerModel
  import opened BrokerSteps
  import opened BrokerInvariant
  import opened BrokerTree
  import opened BrokerTreeSteps
  import opened BrokerCalm
  import opened BrokerCalmSteps
  import opened BrokerSafety
  import opened BrokerEndings
  import opened BrokerWakeEffects

  // ----- results that were read ---------------------------------------------------------

  /** The wake was acknowledged, and neither side holds a slot any more. */
  ghost predicate MayHandOver(s: Store, p: JobId) {
    && Over(s, p) && s.waits[p][0].acked && s.waits[p][0].released
    && p in s.frames && p !in s.slots && s.waits[p][0].child !in s.slots
  }

  /** How the parent's own frame goes on: it ends as its job did, or, late, it runs on. */
  ghost predicate OwnFrameAfter(s: Store, x: FrameState, p: JobId, now: Time)
    requires p in s.frames
  {
    var f := s.frames[p];
    if f.state.FrameEnded? then x == f.state
    else if p !in s.jobs || s.jobs[p].status !in {Completed, Partial, Failed, Cancelled} then x == FrameRunning
    else
      var ending := if s.jobs[p].reason in {DeadlineExhausted, AttemptOrDeadlineExhausted} then Expired
        else EndedAs(s.jobs[p].status);
      if now < f.deadline || ending in {Expired, EndedAs(Cancelled)}
      then x == FrameEnded(Outcome(ending, s.jobs[p].evidence, s.jobs[p].result))
      else x == FrameRunning
  }

  /** One acknowledged wake: handed over if that may be, otherwise at most marked ready. The
      child's frame row is dropped, the parent's goes on, and nothing else changes. */
  ghost predicate HandedOver(s: Store, t: Store, p: JobId, g: int, now: Time) {
    if g != 1 || p in s.slots || !Over(s, p) then t == s
    else
      var ready := s.waits[p][0].(state := WaitReady);
      if !MayHandOver(s, p) then t == s.(waits := s.waits[p := [ready]])
      else
        && t == s.(waits := s.waits[p := [ready.(consumed := true, acked := false)]], frames := t.frames)
        && RowsAfter(s, t.frames, p, ready.child, now)
  }

  lemma ChildIsNotParent(s: Store, p: JobId)
    requires TreeInv(s) && p in s.waits
    ensures |s.waits[p]| == 1 && s.waits[p][0].child != p
    ensures p in s.frames ==> s.frames[p].generation == 1
  {
    hide NoOrphans, OnePreparation, FramesMatchJobs, Rooted;
  }

  lemma MarkedReadyMayHandOver(s: Store, s1: Store, p: JobId)
    requires Over(s, p) && s1 == s.(waits := s.waits[p := [s.waits[p][0].(state := WaitReady)]]) && p !in s.slots
    requires p in s.frames ==> s.frames[p].generation == 1
    ensures ConsumeReady(s1, p, 1) <==> MayHandOver(s, p)
  {
  }

  lemma HandOverIs(s: Store, p: JobId, g: int, now: Time)
    requires p in s.waits ==> |s.waits[p]| == 1 && s.waits[p][0].child != p
    requires p in s.waits && p in s.frames ==> s.frames[p].generation == 1
    ensures HandedOver(s, ConsumeOne(s, p, g, now), p, g, now)
  {
    if g != 1 || p in s.slots || !Over(s, p) {
      assert p !in s.slots ==> MarkReady(s, p, g) == s && !ConsumeReady(s, p, g);
      hide MarkReady, ConsumeReady;
    } else {
      OverIsMarked(s, p);
      var s1 := MarkReady(s, p, 1);
      MarkedReadyMayHandOver(s, s1, p);
      hide MarkReady, ConsumeReady, Over, EndOwnFrame, DropFrame, ResumeFrame, PutWait;
      if MayHandOver(s, p) {
        HandOverFrames(s, s1, p, now);
        hide MayHandOver, HandedOver;
        assert WaitAt(s1, p, 1) == s1.waits[p][0];
      } else {
        hide MayHandOver;
      }
    }
  }

  lemma HandOverFrames(s: Store, s1: Store, p: JobId, now: Time)
    requires MayHandOver(s, p) && s.waits[p][0].child != p
    requires s1 == s.(waits := s.waits[p := [s.waits[p][0].(state := WaitReady)]])
    ensures var w := s1.waits[p][0];
      HasWait(s1, p, 1) &&
      var t := EndOwnFrame(DropFrame(ResumeFrame(PutWait(s1, p, 1, w.(consumed := true, acked := false)), p), w.child),
        p, now);
      HandedOver(s, t, p, 1, now)
  {
    var w := s1.waits[p][0].(consumed := true, acked := false);
    assert s1.waits[p][0 := w] == [w];
    var s2 := PutWait(s1, p, 1, w);
    assert s2 == s.(waits := s.waits[p := [w]]);
    hide PutWait, MayHandOver, Over;
    FramesAfter(s2, p, w.child, now);
    hide EndOwnFrame, DropFrame, ResumeFrame;
    SameRowsAfter(s, s2, EndOwnFrame(DropFrame(ResumeFrame(s2, p), w.child), p, now).frames, p, w.child, now);
    hide RowsAfter;
  }

  /** The parent's row went on, the child's is gone. */
  ghost predicate RowsAfter(s: Store, frames: map<JobId, Frame>, p: JobId, c: JobId, now: Time) {
    && p in s.frames && p in frames && OwnFrameAfter(s, frames[p].state, p, now)
    && frames == (s.frames - {c})[p := s.frames[p].(state := frames[p].state)]
  }

  ghost predicate Resumed(s: Store, t: Store, p: JobId, c: JobId) {
    && p in s.frames && t == s.(frames := t.frames)
    && t.frames == (s.frames - {c})[p := s.frames[p].(state := if s.frames[p].state.FrameEnded? then s.frames[p].state
      else FrameRunning)]
  }

  ghost predicate OwnFrameEnded(s: Store, t: Store, p: JobId, now: Time) {
    && p in s.frames && p in t.frames && t == s.(frames := t.frames) && OwnFrameAfter(s, t.frames[p].state, p, now)
    && t.frames == s.frames[p := s.frames[p].(state := t.frames[p].state)]
  }

  /** Resuming and ending only concern the parent's own row, dropping only the child's. */
  lemma FramesAfter(s: Store, p: JobId, c: JobId, now: Time)
    requires p in s.frames && c != p
    ensures var t := EndOwnFrame(DropFrame(ResumeFrame(s, p), c), p, now);
      t == s.(frames := t.frames) && RowsAfter(s, t.frames, p, c, now)
  {
    var s4 := DropFrame(ResumeFrame(s, p), c);
    ParentRowOnly(s, p, c);
    assert p in s4.frames && (s4.frames[p].state.FrameEnded? || s4.frames[p].state == FrameRunning) by {
      hide DropFrame, ResumeFrame;
    }
    OwnFrameEnds(s4, p, now);
    hide *;
    RowGoesOn(s, s4, EndOwnFrame(s4, p, now), p, c, now);
  }

  lemma SameRowsAfter(s: Store, r: Store, frames: map<JobId, Frame>, p: JobId, c: JobId, now: Time)
    requires r.frames == s.frames && r.jobs == s.jobs && RowsAfter(r, frames, p, c, now)
    ensures RowsAfter(s, frames, p, c, now)
  {
  }

  lemma RowGoesOn(s: Store, m: Store, t: Store, p: JobId, c: JobId, now: Time)
    requires c != p && Resumed(s, m, p, c) && OwnFrameEnded(m, t, p, now)
    ensures t == s.(frames := t.frames) && RowsAfter(s, t.frames, p, c, now)
  {
    var x := if s.frames[p].state.FrameEnded? then s.frames[p].state else FrameRunning;
    SameOwnFrame(s, m, x, t.frames[p].state, p, now);
    hide OwnFrameAfter;
    OverwrittenState(s.frames - {c}, p, s.frames[p], x, t.frames[p].state);
  }

  lemma ParentRowOnly(s: Store, p: JobId, c: JobId)
    requires p in s.frames && c != p
    ensures Resumed(s, DropFrame(ResumeFrame(s, p), c), p, c)
  {
    ResumedRow(s, p);
    hide ResumeFrame;
    DroppedRow(s.frames, p, c, s.frames[p].(state := if s.frames[p].state.FrameEnded? then s.frames[p].state
      else FrameRunning));
  }

  lemma ResumedRow(s: Store, p: JobId)
    requires p in s.frames
    ensures ResumeFrame(s, p) == s.(frames := s.frames[p :=
      s.frames[p].(state := if s.frames[p].state.FrameEnded? then s.frames[p].state else FrameRunning)])
  {
    SameRow(s.frames, p);
  }

  lemma DroppedRow(frames: map<JobId, Frame>, p: JobId, c: JobId, x: Frame)
    requires c != p
    ensures frames[p := x] - {c} == (frames - {c})[p := x]
  {
  }

  lemma OverwrittenState(frames: map<JobId, Frame>, p: JobId, f: Frame, x: FrameState, y: FrameState)
    ensures var t := frames[p := f.(state := x)]; t[p := t[p].(state := y)] == frames[p := f.(state := y)]
  {
  }

  lemma SameOwnFrame(s: Store, r: Store, x: FrameState, y: FrameState, p: JobId, now: Time)
    requires p in s.frames && p in r.frames && r.jobs == s.jobs && r.frames[p] == s.frames[p].(state := x)
    requires x == if s.frames[p].state.FrameEnded? then s.frames[p].state else FrameRunning
    requires OwnFrameAfter(r, y, p, now)
    ensures OwnFrameAfter(s, y, p, now)
  {
  }

  lemma OwnFrameEnds(s: Store, p: JobId, now: Time)
    requires p in s.frames && (s.frames[p].state.FrameEnded? || s.frames[p].state == FrameRunning)
    ensures OwnFrameEnded(s, EndOwnFrame(s, p, now), p, now)
  {
    if p in s.jobs && s.jobs[p].status.Terminal() {
      var o := Outcome(EndingOf(s.jobs[p].status, s.jobs[p].reason), s.jobs[p].evidence, s.jobs[p].result);
      EndFrameRow(s.frames, p, o, now);
      hide EndFrame;
    } else {
      SameRow(s.frames, p);
    }
  }

  lemma SameRow(frames: map<JobId, Frame>, p: JobId)
    requires p in frames
    ensures frames[p := frames[p].(state := frames[p].state)] == frames
  {
  }

  lemma EndFrameRow(frames: map<JobId, Frame>, p: JobId, o: Outcome, now: Time)
    requires p in frames
    ensures var t := EndFrame(frames, p, o, now);
      && p in t && t == frames[p := frames[p].(state := t[p].state)]
      && t[p].state == if !frames[p].state.FrameEnded?
                          && (now < frames[p].deadline || o.ending == Expired || o.ending == EndedAs(Cancelled))
                       then FrameEnded(o) else frames[p].state
  {
    SameRow(frames, p);
  }

  // ----- results nobody will read -------------------------------------------------------

  /** The parent ended without its child's result: job and frame are over, nobody acknowledged
      the wait, and neither side holds a slot. */
  ghost predicate MayDrop(s: Store, p: JobId) {
    && p in s.waits && |s.waits[p]| == 1
    && var w := s.waits[p][0];
    && w.state != WaitRetired && !w.consumed && !w.acked
    && p in s.jobs && s.jobs[p].status in {Completed, Partial, Failed, Cancelled}
    && p in s.frames && s.frames[p].state.FrameEnded? && p !in s.slots
    && w.child !in s.slots && (w.child in s.frames ==> s.frames[w.child].state.FrameEnded?)
  }

  /** The wait is retired and the child's frame row is dropped, exactly if that may be. */
  ghost predicate Dropped(s: Store, t: Store, p: JobId, g: int) {
    if g != 1 || !MayDrop(s, p) then t == s
    else
      var w := s.waits[p][0];
      t == s.(waits := s.waits[p := [w.(state := WaitRetired, consumed := true, acked := false)]],
              frames := s.frames - {w.child})
  }

  lemma DropIs(s: Store, p: JobId, g: int)
    requires p in s.waits ==> |s.waits[p]| == 1
    requires p in s.waits && p in s.frames ==> s.frames[p].generation == 1
    ensures Dropped(s, RetireOne(s, p, g), p, g)
  {
    if g == 1 && MayDrop(s, p) {
      var w := s.waits[p][0].(state := WaitRetired, consumed := true, acked := false);
      assert s.waits[p][0 := w] == [w];
    }
  }

  // ----- the whole transaction ----------------------------------------------------------

  /** The stores between the rows: acknowledged wakes first, then results nobody will read. */
  ghost predicate SettledBy(stores: seq<Store>, acked: seq<(JobId, int)>, unread: seq<(JobId, int)>, now: Time) {
    && |stores| == |acked| + |unread| + 1
    && (forall k :: 0 <= k < |acked| ==> HandedOver(stores[k], stores[k + 1], acked[k].0, acked[k].1, now))
    && (forall k :: 0 <= k < |unread| ==>
         Dropped(stores[|acked| + k], stores[|acked| + k + 1], unread[k].0, unread[k].1))
  }

  lemma DropStep(s: Store, p: JobId, g: int)
    requires TreeInv(s)
    ensures TreeInv(RetireOne(s, p, g)) && Dropped(s, RetireOne(s, p, g), p, g)
  {
    if p in s.waits {
      ChildIsNotParent(s, p);
    }
    hide TreeInv;
    RetireOneKeepsTree(s, p, g);
    DropIs(s, p, g);
    hide *;
  }

  lemma HandOverStep(s: Store, p: JobId, g: int, now: Time)
    requires TreeInv(s)
    ensures TreeInv(ConsumeOne(s, p, g, now)) && HandedOver(s, ConsumeOne(s, p, g, now), p, g, now)
  {
    if p in s.waits {
      ChildIsNotParent(s, p);
    }
    hide TreeInv;
    ConsumeOneKeepsTree(s, p, g, now);
    HandOverIs(s, p, g, now);
    hide *;
  }

  lemma {:induction false} DropsTraced(s: Store, unread: seq<(JobId, int)>, now: Time) returns (stores: seq<Store>)
    requires TreeInv(s)
    ensures SettledBy(stores, [], unread, now) && stores[0] == s && stores[|unread|] == RetireAll(s, unread)
    decreases |unread|
  {
    if unread == [] {
      stores := [s];
    } else {
      hide TreeInv, RetireOne, Dropped, HandedOver;
      DropStep(s, unread[0].0, unread[0].1);
      var rest := DropsTraced(RetireOne(s, unread[0].0, unread[0].1), unread[1..], now);
      stores := [s] + rest;
      forall k | 0 <= k < |unread|
        ensures Dropped(stores[k], stores[k + 1], unread[k].0, unread[k].1)
      {
        if k > 0 {
          assert unread[k] == unread[1..][k - 1];
        }
      }
    }
  }

  lemma {:induction false} SettlementsTraced(s: Store, acked: seq<(JobId, int)>, unread: seq<(JobId, int)>, now: Time)
    returns (stores: seq<Store>)
    requires TreeInv(s)
    ensures SettledBy(stores, acked, unread, now) && stores[0] == s
    ensures stores[|acked| + |unread|] == RetireAll(ConsumeAll(s, acked, now), unread)
    decreases |acked|
  {
    if acked == [] {
      hide TreeInv, RetireAll;
      stores := DropsTraced(s, unread, now);
    } else {
      hide TreeInv, ConsumeOne, Dropped, HandedOver, RetireAll, SettledBy;
      HandOverStep(s, acked[0].0, acked[0].1, now);
      var rest := SettlementsTraced(ConsumeOne(s, acked[0].0, acked[0].1, now), acked[1..], unread, now);
      stores := [s] + rest;
      PrependedTrace(s, rest, acked, unread, now);
    }
  }

  lemma PrependedTrace(s: Store, rest: seq<Store>, acked: seq<(JobId, int)>, unread: seq<(JobId, int)>, now: Time)
    requires acked != [] && SettledBy(rest, acked[1..], unread, now)
    requires HandedOver(s, rest[0], acked[0].0, acked[0].1, now)
    ensures SettledBy([s] + rest, acked, unread, now)
  {
    hide Dropped, HandedOver;
    var stores := [s] + rest;
    forall k | 0 <= k < |acked|
      ensures HandedOver(stores[k], stores[k + 1], acked[k].0, acked[k].1, now)
    {
      if k > 0 {
        assert acked[k] == acked[1..][k - 1];
      }
    }
    var n := |acked[1..]|;
    forall k | 0 <= k < |unread|
      ensures Dropped(stores[|acked| + k], stores[|acked| + k + 1], unread[k].0, unread[k].1)
    {
      assert Dropped(rest[n + k], rest[n + k + 1], unread[k].0, unread[k].1);
    }
  }

  /** A settlement handles its rows one after the other, each as its own state then allows. */
  lemma SettlementMeans(s: Store, acked: seq<(JobId, int)>, unread: seq<(JobId, int)>, now: Time)
    requires TreeInv(s)
    ensures exists stores :: SettledBy(stores, acked, unread, now) && stores[0] == s
                             && stores[|acked| + |unread|] == SettleWaits(s, acked, unread, now)
  {
    hide TreeInv, SettledBy, RetireAll, ConsumeAll;
    var stores := SettlementsTraced(s, acked, unread, now);
  }

  // ----- slots --------------------------------------------------------------------------

  /** The lease of this attempt's slot, and of this attempt while it runs, and nothing else. */
  ghost predicate Renewed(cfg: Config, s: Store, t: Store, id: JobId, attempt: int, now: Time) {
    && t == s.(jobs := t.jobs, slots := t.slots)
    && t.jobs.Keys == s.jobs.Keys && t.slots.Keys == s.slots.Keys
    && (forall x :: x in s.slots ==>
          t.slots[x] == if x == id && s.slots[x].attempt == attempt
                        then s.slots[x].(lease := now + cfg.leaseSeconds) else s.slots[x])
    && (forall x :: x in s.jobs ==>
          t.jobs[x] == if x == id && s.jobs[x].attempt == attempt && s.jobs[x].status == Running
                       then s.jobs[x].(lease := now + cfg.leaseSeconds) else s.jobs[x])
  }

  lemma HeartbeatRenews(cfg: Config, s: Store, id: JobId, attempt: int, now: Time)
    ensures Renewed(cfg, s, Heartbeat(cfg, s, id, attempt, now), id, attempt, now)
  {
  }

  /** The parent sleeps on its wait, which is not retired, and gave its slot back. */
  ghost predicate Sleeps(s: Store, p: JobId) {
    && p in s.frames && s.frames[p].state == FrameWaiting && p in s.waits && |s.waits[p]| == 1
    && s.waits[p][0].state != WaitRetired && p !in s.slots
  }

  /** The wait is released and the parent's frame suspended, which lets the child start. */
  ghost predicate Armed(s: Store, t: Store, p: JobId) {
    if Sleeps(s, p) then
      t == s.(waits := s.waits[p := [s.waits[p][0].(released := true)]],
              frames := s.frames[p := s.frames[p].(state := FrameSuspended)])
    else t == s
  }

  lemma ReleaseArms(s: Store, p: JobId)
    requires p in s.waits ==> |s.waits[p]| == 1
    requires p in s.waits && p in s.frames ==> s.frames[p].generation == 1
    ensures Armed(s, ReleaseParent(s, p), p)
  {
    if Sleeps(s, p) {
      assert s.waits[p][0 := s.waits[p][0].(released := true)] == [s.waits[p][0].(released := true)];
    }
  }

  /** One execution's cleanup, once: its own slot is removed and a sleeping parent's child
      armed, or, after a failed close, the slot is kept and marked. */
  ghost predicate CleanedAs(s: Store, t: Store, id: JobId, attempt: int, failed: bool) {
    var gone := s.(workers := s.workers - {(id, attempt)});
    var mine := id in s.slots && s.slots[id].attempt == attempt;
    if (id, attempt) !in s.workers then t == s
    else if failed then t == if mine then gone.(slots := s.slots[id := s.slots[id].(cleanupFailed := true)]) else gone
    else Armed(if mine then gone.(slots := s.slots - {id}) else gone, t, id)
  }

  lemma CleanupIs(s: Store, id: JobId, attempt: int, failed: bool)
    requires TreeInv(s)
    ensures CleanedAs(s, Cleanup(s, id, attempt, failed), id, attempt, failed)
  {
    if id in s.waits {
      ChildIsNotParent(s, id);
    }
    hide TreeInv;
    ReleaseArms(FreeSlot(s, id, attempt), id);
    hide ReleaseParent, Armed;
  }

  ghost predicate Lost(s: Store, t: Store, lost: set<(JobId, int)>) {
    t == s.(workers := t.workers) && forall w :: w in t.workers <==> w in s.workers && w !in lost
  }

  lemma LossIs(s: Store, lost: set<(JobId, int)>)
    ensures Lost(s, LoseWorkers(s, lost), lost)
  {
  }

  /** The slot an operator may remove: of an ended job, marked failed, of this attempt and this
      owner, who is dead, with a verified proof. */
  ghost predicate MayReconcile(s: Store, id: JobId, attempt: int, owner: Process, alive: set<Process>, proved: bool) {
    && proved && owner !in alive && id in s.slots && s.slots[id].cleanupFailed
    && s.slots[id].attempt == attempt && s.slots[id].owner == Some(owner)
    && id in s.jobs && s.jobs[id].status in {Completed, Partial, Failed, Cancelled}
  }

  ghost predicate SlotRemoved(s: Store, t: Store, id: JobId) {
    && t == s.(slots := t.slots) && id !in t.slots
    && forall x :: x != id ==> (x in t.slots <==> x in s.slots) && (x in t.slots ==> t.slots[x] == s.slots[x])
  }

  lemma ReconciliationIs(s: Store, id: JobId, attempt: int, owner: Process, alive: set<Process>, proved: bool)
    requires SlotsMatchJobs(s)
    ensures var (t, accepted) := ReconcileStaleSlot(s, id, attempt, owner, alive, proved);
      && (accepted <==> MayReconcile(s, id, attempt, owner, alive, proved))
      && if accepted then SlotRemoved(s, t, id) else t == s
  {
    assert id in s.slots && id in s.jobs ==> s.slots[id].attempt <= s.jobs[id].attempt;
    hide SlotsMatchJobs;
  }

  // ----- failures asked for again -------------------------------------------------------

  /** An inquiry is forgotten exactly if its job was named with the reason it ended for, ended
      without an answer worth serving, holds no slot, and was delivered. */
  ghost predicate Forgotten(s: Store, t: Store, expected: map<JobId, Reason>, delivered: set<JobId>) {
    && t == s.(index := t.index) && t.index.Keys <= s.index.Keys
    && forall i :: i in s.index ==>
         && (i in t.index ==> t.index[i] == s.index[i])
         && (i !in t.index <==>
               && s.index[i] in s.jobs && s.index[i] in expected && s.index[i] in delivered && s.index[i] !in s.slots
               && s.jobs[s.index[i]].status in {Completed, Partial, Failed, Cancelled}
               && s.jobs[s.index[i]].reason == expected[s.index[i]] && !Serves(s.jobs[s.index[i]]))
  }

  lemma FailuresForgotten(s: Store, expected: map<JobId, Reason>, delivered: set<JobId>)
    ensures Forgotten(s, ReleaseFailed(s, expected, delivered), expected, delivered)
  {
    forall j | j in s.jobs
      ensures CacheEligible(s.jobs[j]) <==> Serves(s.jobs[j])
    {
      BlankIsWordless();
      hide Blank, Wordless;
    }
    hide CacheEligible, Serves;
  }
}
