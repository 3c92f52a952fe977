/** A wake files the result of every finished child it lists, and the result then stays in the
    parent's log, once. */
module BrokerWakes {
  import opened Prelude
  import opened BrokerModel
  import opened BrokerSteps
  import opened BrokerInvariant
  import opened BrokerCalmSteps
  import opened BrokerRuns
  import opened BrokerSafety

  /** A live parent's wait whose child finished and whose result was not handed over. */
  predicate Deliverable(s: Store, p: JobId, g: int) {
    HasWait(s, p, g) && OutcomeReady(s, p, g) && !WaitAt(s, p, g).consumed && Live(s, p)
  }

  function ResultKey(s: Store, p: JobId, g: int): ChildKey
    requires HasWait(s, p, g)
  {
    ChildKey(p, g, WaitAt(s, p, g).child)
  }

  lemma WakeFilesOne(s: Store, p: JobId, g: int, now: Time)
    requires Deliverable(s, p, g)
    ensures ResultKey(s, p, g) in WakeOne(s, p, g, now).childPackets
  {
  }

  /** Marking a wait ready changes only the state of that wait. */
  lemma PutLeavesWait(s: Store, q: JobId, h: int, p: JobId, g: int)
    requires HasWait(s, q, h) && HasWait(s, p, g)
    ensures var t := PutWait(s, q, h, WaitAt(s, q, h).(state := WaitReady));
      && HasWait(t, p, g) && WaitAt(t, p, g).child == WaitAt(s, p, g).child
      && WaitAt(t, p, g).consumed == WaitAt(s, p, g).consumed
      && (WaitAt(t, p, g).state == WaitAt(s, p, g).state || WaitAt(t, p, g).state.WaitReady?)
  {
    if q == p && h != g {
      assert s.waits[p][h - 1 := WaitAt(s, q, h).(state := WaitReady)][g - 1] == s.waits[p][g - 1];
    }
  }

  lemma MarkingChangesWaits(s: Store, q: JobId, h: int)
    ensures MarkReady(s, q, h) == s || (HasWait(s, q, h)
      && MarkReady(s, q, h) == PutWait(s, q, h, WaitAt(s, q, h).(state := WaitReady)))
  {
    hide ChildEnded;
  }

  lemma MarkingLeaves(s: Store, q: JobId, h: int, p: JobId, g: int)
    requires Deliverable(s, p, g)
    ensures var t := MarkReady(s, q, h);
      && t == s.(waits := t.waits)
      && Deliverable(t, p, g) && ResultKey(t, p, g) == ResultKey(s, p, g)
  {
    MarkReadyWaits(s, q, h);
    MarkingChangesWaits(s, q, h);
    if MarkReady(s, q, h) != s {
      PutLeavesWait(s, q, h, p, g);
      hide MarkReady, PutWait, HasWait, WaitAt;
    }
  }

  lemma AppendingLeaves(s: Store, q: JobId, h: int, child: JobId, p: JobId, g: int)
    requires Deliverable(s, p, g) && q in s.jobs
    ensures var t := AppendChildResult(s, q, h, child);
      && t.frames == s.frames && t.waits == s.waits && s.childPackets.Keys <= t.childPackets.Keys
      && Deliverable(t, p, g) && q in t.jobs && t.jobs[q].status == s.jobs[q].status
  {
    AppendingKeepsStatus(s, q, h, child);
    hide AppendChildResult, OutcomeReady, HasWait;
    SameWaits(s, AppendChildResult(s, q, h, child), p, g);
  }

  lemma AppendingKeepsStatus(s: Store, q: JobId, h: int, child: JobId)
    requires q in s.jobs
    ensures var t := AppendChildResult(s, q, h, child);
      && t.frames == s.frames && t.waits == s.waits && s.childPackets.Keys <= t.childPackets.Keys
      && t.jobs.Keys == s.jobs.Keys && forall id :: id in s.jobs ==> t.jobs[id].status == s.jobs[id].status
  {
    hide ChildRefs;
  }

  lemma SameWaits(s: Store, t: Store, p: JobId, g: int)
    requires Deliverable(s, p, g) && t.frames == s.frames && t.waits == s.waits && Live(t, p)
    ensures Deliverable(t, p, g)
  {
  }

  /** Waking another parent, or another of its waits, leaves this one deliverable. */
  lemma WakeLeaves(s: Store, q: JobId, h: int, now: Time, p: JobId, g: int)
    requires Deliverable(s, p, g)
    ensures var t := WakeOne(s, q, h, now);
      Deliverable(t, p, g) && ResultKey(t, p, g) == ResultKey(s, p, g)
  {
    if OutcomeReady(s, q, h) {
      MarkingLeaves(s, q, h, p, g);
      var s1 := MarkReady(s, q, h);
      if Live(s1, q) && !WaitAt(s, q, h).consumed {
        AppendingLeaves(s1, q, h, WaitAt(s, q, h).child, p, g);
      }
      hide MarkReady, AppendChildResult;
    }
  }

  lemma WakeKeepsFiled(s: Store, q: JobId, h: int, now: Time)
    ensures s.childPackets.Keys <= WakeOne(s, q, h, now).childPackets.Keys
  {
    if OutcomeReady(s, q, h) {
      MarkReadyWaits(s, q, h);
      MarkingChangesWaits(s, q, h);
      var s1 := MarkReady(s, q, h);
      if Live(s1, q) && !WaitAt(s, q, h).consumed {
        AppendingKeepsFiled(s1, q, h, WaitAt(s, q, h).child);
      }
      hide MarkReady, AppendChildResult, OutcomeReady;
    }
  }

  lemma AppendingKeepsFiled(s: Store, q: JobId, h: int, child: JobId)
    requires q in s.jobs
    ensures s.childPackets.Keys <= AppendChildResult(s, q, h, child).childPackets.Keys
  {
    hide ChildRefs;
  }

  lemma {:induction false} WakeAllKeepsFiled(s: Store, waits: seq<(JobId, int)>, now: Time)
    ensures s.childPackets.Keys <= WakeAll(s, waits, now).childPackets.Keys
    decreases |waits|
  {
    hide WakeOne;
    if waits != [] {
      WakeKeepsFiled(s, waits[0].0, waits[0].1, now);
      WakeAllKeepsFiled(WakeOne(s, waits[0].0, waits[0].1, now), waits[1..], now);
    }
  }

  /** Wherever it stands in the list, a deliverable wait is delivered. */
  lemma {:induction false} WakeAllFiles(s: Store, waits: seq<(JobId, int)>, now: Time, p: JobId, g: int)
    requires Deliverable(s, p, g) && (p, g) in waits
    ensures ResultKey(s, p, g) in WakeAll(s, waits, now).childPackets
    decreases |waits|
  {
    hide WakeOne, Deliverable;
    var s1 := WakeOne(s, waits[0].0, waits[0].1, now);
    if waits[0] == (p, g) {
      WakeFilesOne(s, p, g, now);
      WakeAllKeepsFiled(s1, waits[1..], now);
    } else {
      WakeLeaves(s, waits[0].0, waits[0].1, now, p, g);
      WakeAllFiles(s1, waits[1..], now, p, g);
    }
  }

  lemma DeliverablesListed(s: Store, rows: seq<(JobId, int)>)
    requires forall w :: w in rows <==> HasWait(s, w.0, w.1) && !WaitAt(s, w.0, w.1).state.WaitRetired?
    ensures forall p, g :: Deliverable(s, p, g) ==> (p, g) in rows
  {
  }

  /** A whole wake files every deliverable wait it lists. */
  lemma WakeFiles(s: Store, waits: seq<(JobId, int)>, now: Time)
    ensures forall p, g :: (p, g) in waits && Deliverable(s, p, g) ==>
      ResultKey(s, p, g) in Wake(s, waits, now, true).childPackets
  {
    hide WakeAll, OutcomeReady;
    forall p, g | (p, g) in waits && Deliverable(s, p, g)
      ensures ResultKey(s, p, g) in Wake(s, waits, now, true).childPackets
    {
      WakeAllFiles(s, waits, now, p, g);
    }
  }

  /** The parent's log has an entry of this child, at the position it says it has. */
  ghost predicate ResultLogged(s: Store, key: ChildKey) {
    && key in s.childPackets && key.parent in s.jobs
    && exists k :: EntryOf(s.jobs[key.parent].observations, k, key.child, s.childPackets[key])
  }

  predicate EntryOf(log: seq<Observation>, k: int, child: JobId, packet: PacketId) {
    && 0 <= k < |log|
    && log[k].id == packet && log[k].body.ChildResult? && log[k].body.child == child && log[k].body.ordinal == k + 1
  }

  lemma FiledIsLogged(cfg: Config, s: Store, key: ChildKey)
    requires Inv(cfg, s) && key in s.childPackets
    ensures ResultLogged(s, key)
  {
    hide Inv, JobLog, LogMatchesEvidence, Owned;
    FiledResultLogged(cfg, s, key);
    var k :| 0 <= k < |s.jobs[key.parent].observations| && s.jobs[key.parent].observations[k].id == s.childPackets[key]
      && s.jobs[key.parent].observations[k].body.ChildResult?
      && s.jobs[key.parent].observations[k].body.child == key.child;
    LogOf(cfg, s, key.parent);
    EntryKnowsPlace(s, key.parent, k);
    assert EntryOf(s.jobs[key.parent].observations, k, key.child, s.childPackets[key]);
  }

  lemma EntryKnowsPlace(s: Store, id: JobId, k: int)
    requires id in s.jobs && JobLog(s.outbox, s.edges, s.childPackets, id, s.jobs[id])
    requires 0 <= k < |s.jobs[id].observations| && s.jobs[id].observations[k].body.ChildResult?
    ensures s.jobs[id].observations[k].body.ordinal == k + 1
  {
    hide Owned, LogMatchesEvidence;
    assert ChildEntry(s.outbox, s.edges, s.childPackets, id, k, s.jobs[id].observations[k]);
  }
}
