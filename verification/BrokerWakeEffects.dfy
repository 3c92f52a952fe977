/** What a wake files in its parents' logs, said of the rows themselves. */
module BrokerWakeEffects {
  import opened Prelude
  import opened BrokerModel
  import opened BrokerSteps
  import opened BrokerInvariant
  import opened BrokerCalmSteps
  import opened BrokerRuns

  // ----- the packets a result cites ---------------------------------------------------

  /** The packets of a finished child: its evidence in order, then its result, each once. */
  ghost predicate CitesOutcome(refs: seq<PacketId>, outcome: Outcome) {
    && (forall i, j :: 0 <= i < j < |refs| ==> refs[i] != refs[j])
    && (forall x :: x in refs <==> x in outcome.evidence || outcome.result == Some(x))
    && (Distinct(outcome.evidence) ==> outcome.evidence <= refs)
  }

  lemma RefsCite(o: Outcome)
    ensures CitesOutcome(ChildRefs(o), o)
  {
    if Distinct(o.evidence) {
      DedupOfDistinct(o.evidence);
    }
  }

  // ----- one parent through a wake ------------------------------------------------------

  /** The parent's one wait is over and its result has not been handed over. */
  ghost predicate Over(s: Store, p: JobId) {
    && p in s.waits && |s.waits[p]| == 1
    && var w := s.waits[p][0];
    && w.state != WaitRetired && !w.consumed && w.child in s.frames && s.frames[w.child].state.FrameEnded?
  }

  ghost predicate Alive(s: Store, p: JobId) {
    p in s.jobs && s.jobs[p].status !in {Completed, Partial, Failed, Cancelled}
  }

  /** The parent is queued again, and its log ends with the child's result: how the child
      ended, the packets it cites, and the place it has. The packet is a new outbox row of the
      parent whose parents are the packets cited. A result filed before is not filed again. */
  ghost predicate ResultFiled(s: Store, t: Store, p: JobId, now: Time)
    requires Over(s, p) && p in s.jobs
  {
    var child := s.waits[p][0].child;
    var outcome := s.frames[child].state.outcome;
    var key := ChildKey(p, 1, child);
    var woken := s.jobs[p].(status := QueuedAfterEviction, available := now, updated := now);
    && p in t.jobs && key in t.childPackets
    && if key in s.childPackets then t.jobs[p] == woken && t.childPackets[key] == s.childPackets[key]
       else
         var packet := t.childPackets[key];
         && |s.outbox| <= packet < |t.outbox| && t.outbox[packet].job == p
         && var refs := t.outbox[packet].parents;
         && CitesOutcome(refs, outcome)
         && t.jobs[p] == woken.(
              evidence := woken.evidence + [packet],
              observations := woken.observations
                + [Observation(packet, ChildResult(child, |woken.observations| + 1, outcome.ending, refs), None)])
  }

  ghost predicate Marked(s: Store, p: JobId, listed: bool) {
    listed && Over(s, p)
  }

  /** What a wake that listed the parent, or did not, leaves of it. */
  ghost predicate ParentAfter(s: Store, t: Store, p: JobId, listed: bool, now: Time) {
    && (p in t.waits <==> p in s.waits)
    && (p in s.waits ==>
          t.waits[p] == if Marked(s, p, listed) then [s.waits[p][0].(state := WaitReady)] else s.waits[p])
    && (p in t.jobs <==> p in s.jobs)
    && (p in s.jobs ==>
          if Marked(s, p, listed) && Alive(s, p) then ResultFiled(s, t, p, now)
          else t.jobs[p] == s.jobs[p])
    && forall key :: key in t.childPackets && key.parent == p && key !in s.childPackets ==>
         Marked(s, p, listed) && Alive(s, p) && key == ChildKey(p, 1, s.waits[p][0].child)
  }

  /** Nothing else changes, and rows and filed keys are only added. */
  ghost predicate OnlyFiles(s: Store, t: Store) {
    && t == s.(jobs := t.jobs, waits := t.waits, outbox := t.outbox, childPackets := t.childPackets)
    && s.outbox <= t.outbox
    && forall key :: key in s.childPackets ==> key in t.childPackets && t.childPackets[key] == s.childPackets[key]
  }

  /** At most one wait, and a live parent has not been handed its result. */
  ghost predicate OneWaitOf(s: Store, p: JobId) {
    p in s.waits ==> |s.waits[p]| == 1 && (s.waits[p][0].consumed ==> p in s.jobs && s.jobs[p].status.Terminal())
  }

  lemma OneWaitEach(s: Store)
    requires TreeInv(s)
    ensures forall p :: OneWaitOf(s, p)
  {
    hide EdgesMatchWaits, FramesMatchWaits, DepthBounded, NoOrphans, OnePreparation, FramesMatchJobs, Rooted;
  }

  lemma WakeOnlyFiles(s: Store, p: JobId, g: int, now: Time)
    ensures OnlyFiles(s, WakeOne(s, p, g, now))
  {
    MarkReadyWaits(s, p, g);
    var s1 := MarkReady(s, p, g);
    assert OutcomeReady(s, p, g) ==> HasWait(s, p, g);
    hide MarkReady, OutcomeReady, AppendChildResult, WaitAt;
    if OutcomeReady(s, p, g) && Live(s1, p) && !WaitAt(s, p, g).consumed {
      AppendingOnlyFiles(s1, p, g, WaitAt(s, p, g).child);
    }
  }

  lemma AppendingOnlyFiles(s: Store, p: JobId, g: int, child: JobId)
    requires p in s.jobs
    ensures OnlyFiles(s, AppendChildResult(s, p, g, child)) && p in AppendChildResult(s, p, g, child).jobs
  {
    hide ChildRefs;
  }

  ghost predicate Spared(s: Store, t: Store, p: JobId) {
    && (p in t.waits <==> p in s.waits) && (p in s.waits ==> t.waits[p] == s.waits[p])
    && (p in t.jobs <==> p in s.jobs) && (p in s.jobs ==> t.jobs[p] == s.jobs[p])
    && forall key :: key in t.childPackets && key.parent == p ==> key in s.childPackets
  }

  lemma MarkingSpares(s: Store, q: JobId, g: int, p: JobId)
    requires q != p
    ensures Spared(s, MarkReady(s, q, g), p)
  {
    MarkReadyWaits(s, q, g);
    OtherWaitsStay(s, q, g, p);
    hide MarkReady;
  }

  lemma OtherWaitsStay(s: Store, q: JobId, g: int, p: JobId)
    requires q != p
    ensures var t := MarkReady(s, q, g);
      (p in t.waits <==> p in s.waits) && (p in s.waits ==> t.waits[p] == s.waits[p])
  {
    MarkIs(s, q, g);
    hide MarkReady, HasWait, WaitAt;
  }

  lemma MarkIs(s: Store, q: JobId, g: int)
    ensures MarkReady(s, q, g) == s
      || (HasWait(s, q, g) && MarkReady(s, q, g) == PutWait(s, q, g, WaitAt(s, q, g).(state := WaitReady)))
  {
    hide ChildEnded, PutWait;
  }

  lemma AppendingSpares(s: Store, q: JobId, g: int, child: JobId, p: JobId)
    requires q != p && q in s.jobs
    ensures Spared(s, AppendChildResult(s, q, g, child), p) && q in AppendChildResult(s, q, g, child).jobs
  {
    hide ChildRefs;
  }

  /** A wake of another parent. */
  lemma OtherParent(s: Store, q: JobId, g: int, now: Time, p: JobId)
    requires q != p
    ensures Spared(s, WakeOne(s, q, g, now), p)
  {
    if OutcomeReady(s, q, g) {
      var s1 := MarkReady(s, q, g);
      MarkingSpares(s, q, g, p);
      if Live(s1, q) && !WaitAt(s, q, g).consumed {
        AppendingSpares(s1, q, g, WaitAt(s, q, g).child, p);
      }
    }
    hide MarkReady, OutcomeReady, AppendChildResult;
  }

  lemma SparedAfter(s: Store, t: Store, p: JobId, now: Time)
    requires Spared(s, t, p)
    ensures ParentAfter(s, t, p, false, now)
  {
  }

  /** A wake of this parent: only its first wait can be ready. */
  lemma ThisParent(s: Store, p: JobId, g: int, now: Time)
    requires OneWaitOf(s, p)
    ensures ParentAfter(s, WakeOne(s, p, g, now), p, g == 1, now)
  {
    if g != 1 || !Over(s, p) {
      NothingToWake(s, p, g, now);
    } else {
      OverIsMarked(s, p);
      var s1 := MarkReady(s, p, 1);
      var child := s.waits[p][0].child;
      assert Alive(s, p) <==> Live(s1, p);
      hide MarkReady, OutcomeReady, AppendChildResult, ResultFiled, OneWaitOf;
      if Alive(s, p) {
        ResultAppended(s, s1, p, now);
      }
    }
  }

  lemma NothingToWake(s: Store, p: JobId, g: int, now: Time)
    requires OneWaitOf(s, p) && (g != 1 || !Over(s, p))
    ensures WakeOne(s, p, g, now) == s && ParentAfter(s, s, p, g == 1, now)
  {
    if OutcomeReady(s, p, g) {
      assert g == 1 && s.waits[p][0].consumed;
      assert MarkReady(s, p, g) == s;
    }
  }

  lemma ResultAppended(s: Store, s1: Store, p: JobId, now: Time)
    requires Over(s, p) && Alive(s, p) && s1 == s.(waits := s.waits[p := [s.waits[p][0].(state := WaitReady)]])
    ensures var child := s.waits[p][0].child;
      var s2 := AppendChildResult(s1, p, 1, child);
      && p in s2.jobs && s2.waits == s1.waits
      && var t := s2.(jobs := s2.jobs[p := s2.jobs[p].(status := QueuedAfterEviction, updated := now,
        available := now)]);
      && ResultFiled(s, t, p, now)
      && forall key :: key in t.childPackets && key !in s.childPackets ==> key == ChildKey(p, 1, child)
  {
    var child := s.waits[p][0].child;
    if ChildKey(p, 1, child) !in s.childPackets {
      var refs := ChildRefs(s.frames[child].state.outcome);
      RefsCite(s.frames[child].state.outcome);
      AppendedRow(s1, p, child);
      hide ChildRefs, CitesOutcome, AppendChildResult;
    }
  }

  lemma AppendedRow(s: Store, p: JobId, child: JobId)
    requires p in s.jobs && child in s.frames && s.frames[child].state.FrameEnded?
    requires ChildKey(p, 1, child) !in s.childPackets
    ensures var outcome := s.frames[child].state.outcome;
      var packet, log := |s.outbox|, s.jobs[p].observations;
      AppendChildResult(s, p, 1, child) ==
        s.(outbox := s.outbox + [Row(p, ChildRefs(outcome))],
           childPackets := s.childPackets[ChildKey(p, 1, child) := packet],
           jobs := s.jobs[p := s.jobs[p].(
             evidence := s.jobs[p].evidence + [packet],
             observations := log + [Observation(packet,
               ChildResult(child, |log| + 1, outcome.ending, ChildRefs(outcome)),
                                                None)])])
  {
    hide ChildRefs;
  }

  lemma OverIsMarked(s: Store, p: JobId)
    requires Over(s, p)
    ensures OutcomeReady(s, p, 1)
    ensures MarkReady(s, p, 1) == s.(waits := s.waits[p := [s.waits[p][0].(state := WaitReady)]])
  {
    assert s.waits[p][0 := s.waits[p][0].(state := WaitReady)] == [s.waits[p][0].(state := WaitReady)];
  }

  lemma WakesCompose(s: Store, m: Store, t: Store, p: JobId, a: bool, b: bool, now: Time)
    requires OnlyFiles(s, m) && OnlyFiles(m, t)
    requires ParentAfter(s, m, p, a, now) && ParentAfter(m, t, p, b, now)
    ensures ParentAfter(s, t, p, a || b, now)
  {
    hide CitesOutcome;
    assert Marked(m, p, b) <==> Marked(s, p, b);
    if Marked(s, p, a || b) && Alive(s, p) {
      if Marked(s, p, a) && Marked(s, p, b) {
        FiledTwice(s, m, t, p, now);
      } else if Marked(s, p, a) {
        FiledBefore(s, m, t, p, now);
      } else {
        FiledAfter(s, m, t, p, now);
      }
    }
  }

  lemma FiledTwice(s: Store, m: Store, t: Store, p: JobId, now: Time)
    requires OnlyFiles(s, m) && OnlyFiles(m, t) && Over(s, p) && Over(m, p) && p in s.jobs && p in m.jobs
    requires s.waits[p][0].child == m.waits[p][0].child
    requires ResultFiled(s, m, p, now) && ResultFiled(m, t, p, now)
    ensures ResultFiled(s, t, p, now)
  {
    hide CitesOutcome;
  }

  lemma FiledBefore(s: Store, m: Store, t: Store, p: JobId, now: Time)
    requires OnlyFiles(s, m) && OnlyFiles(m, t) && Over(s, p) && p in s.jobs && p in t.jobs
    requires ResultFiled(s, m, p, now) && t.jobs[p] == m.jobs[p]
    ensures ResultFiled(s, t, p, now)
  {
    hide CitesOutcome;
  }

  lemma FiledAfter(s: Store, m: Store, t: Store, p: JobId, now: Time)
    requires OnlyFiles(s, m) && OnlyFiles(m, t) && Over(s, p) && Over(m, p) && p in s.jobs && p in m.jobs
    requires s.waits[p][0].child == m.waits[p][0].child && m.jobs[p] == s.jobs[p]
    requires forall key :: key in m.childPackets && key.parent == p ==> key in s.childPackets
    requires ResultFiled(m, t, p, now)
    ensures ResultFiled(s, t, p, now)
  {
    hide CitesOutcome;
  }

  lemma OnlyFilesCompose(s: Store, m: Store, t: Store)
    requires OnlyFiles(s, m) && OnlyFiles(m, t)
    ensures OnlyFiles(s, t)
  {
  }

  lemma StillOneWait(s: Store, t: Store, p: JobId, listed: bool, now: Time)
    requires OneWaitOf(s, p) && ParentAfter(s, t, p, listed, now)
    requires (p in s.jobs ==> Alive(s, p) || t.jobs[p] == s.jobs[p])
    ensures OneWaitOf(t, p)
  {
    hide ResultFiled;
  }

  lemma {:induction false} WakeAllMeans(s: Store, waits: seq<(JobId, int)>, now: Time, p: JobId)
    requires OneWaitOf(s, p)
    ensures var t := WakeAll(s, waits, now);
      OnlyFiles(s, t) && ParentAfter(s, t, p, (p, 1) in waits, now)
    decreases |waits|
  {
    if waits != [] {
      var (q, g) := waits[0];
      var m := WakeOne(s, q, g, now);
      WakeOnlyFiles(s, q, g, now);
      if q == p {
        ThisParent(s, p, g, now);
      } else {
        OtherParent(s, q, g, now, p);
        SparedAfter(s, m, p, now);
      }
      var here := q == p && g == 1;
      assert ParentAfter(s, m, p, here, now);
      hide WakeOne, OnlyFiles, Spared;
      StillOneWait(s, m, p, here, now) by { hide ResultFiled; }
      hide ParentAfter, OneWaitOf;
      WakeAllMeans(m, waits[1..], now, p);
      WakesCompose(s, m, WakeAll(m, waits[1..], now), p, here, (p, 1) in waits[1..], now);
      OnlyFilesCompose(s, m, WakeAll(m, waits[1..], now));
      assert (p, 1) in waits <==> here || (p, 1) in waits[1..];
    } else {
      SparedAfter(s, s, p, now);
    }
  }

  // ----- the outbox ---------------------------------------------------------------------

  /** Every new outbox row is the packet of a result that was filed. */
  ghost predicate RowsAreResults(s: Store, t: Store) {
    forall k :: |s.outbox| <= k < |t.outbox| ==> NewResultAt(s, t, k)
  }

  ghost predicate NewResultAt(s: Store, t: Store, packet: PacketId) {
    exists key :: key in t.childPackets && key !in s.childPackets && t.childPackets[key] == packet
  }

  lemma WakeOneRows(s: Store, p: JobId, g: int, now: Time)
    ensures RowsAreResults(s, WakeOne(s, p, g, now))
  {
    var t := WakeOne(s, p, g, now);
    if OutcomeReady(s, p, g) {
      MarkReadyWaits(s, p, g);
      var w := WaitAt(s, p, g);
      hide MarkReady, OutcomeReady, ChildRefs;
      if |t.outbox| > |s.outbox| {
        assert ChildKey(p, g, w.child) in t.childPackets && t.childPackets[ChildKey(p, g, w.child)] == |s.outbox|;
      }
    }
  }

  lemma RowsCompose(s: Store, m: Store, t: Store)
    requires OnlyFiles(s, m) && OnlyFiles(m, t) && RowsAreResults(s, m) && RowsAreResults(m, t)
    ensures RowsAreResults(s, t)
  {
    forall k | |s.outbox| <= k < |t.outbox|
      ensures NewResultAt(s, t, k)
    {
      if k < |m.outbox| {
        assert NewResultAt(s, m, k);
        var key :| key in m.childPackets && key !in s.childPackets && m.childPackets[key] == k;
        assert key in t.childPackets && t.childPackets[key] == k;
      } else {
        assert NewResultAt(m, t, k);
        var key :| key in t.childPackets && key !in m.childPackets && t.childPackets[key] == k;
        assert key !in s.childPackets;
      }
    }
  }

  lemma {:induction false} WakeAllRows(s: Store, waits: seq<(JobId, int)>, now: Time)
    ensures OnlyFiles(s, WakeAll(s, waits, now)) && RowsAreResults(s, WakeAll(s, waits, now))
    decreases |waits|
  {
    if waits != [] {
      var m := WakeOne(s, waits[0].0, waits[0].1, now);
      WakeOnlyFiles(s, waits[0].0, waits[0].1, now);
      WakeOneRows(s, waits[0].0, waits[0].1, now);
      hide WakeOne, OnlyFiles, RowsAreResults;
      WakeAllRows(m, waits[1..], now);
      RowsCompose(s, m, WakeAll(m, waits[1..], now));
      OnlyFilesCompose(s, m, WakeAll(m, waits[1..], now));
    }
  }

  /** A wake that is not rolled back files the result of every listed wait that is over and
      whose parent is alive, marks the other listed ones ready, and does nothing else. */
  lemma WakeMeans(s: Store, waits: seq<(JobId, int)>, now: Time, p: JobId)
    requires TreeInv(s)
    ensures var t := Wake(s, waits, now, true);
      && OnlyFiles(s, t) && RowsAreResults(s, t)
      && ParentAfter(s, t, p, (p, 1) in waits, now)
  {
    OneWaitEach(s);
    hide TreeInv, WakeAll, OnlyFiles, RowsAreResults, ParentAfter, OneWaitOf;
    WakeAllMeans(s, waits, now, p);
    WakeAllRows(s, waits, now);
  }
}
