/** The tree of frames survives every transaction. */
module BrokerTree {
  import opened Prelude
  import opened BrokerModel
  import opened BrokerSteps
  import opened BrokerInvariant

  /** Only the shape of the tree and which jobs are terminal matter to it. */
  ghost predicate SameTree(s: Store, t: Store) {
    && t.frames == s.frames && t.waits == s.waits && t.edges == s.edges && t.preparations == s.preparations
    && t.jobs.Keys == s.jobs.Keys
    && EndedSet(t.jobs) == EndedSet(s.jobs)
  }

  lemma SameTreeKeeps(s: Store, t: Store)
    requires TreeInv(s) && SameTree(s, t)
    ensures TreeInv(t)
  {
  }

  /** Rewriting one wait in place, keeping its child. */
  lemma RewriteWait(ended: set<JobId>, ids: set<JobId>, frames: map<JobId, Frame>, waits: map<JobId, seq<Wait>>,
                    edges: map<JobId, Edge>, p: JobId, w: Wait)
    requires OneWait(ended, waits, edges) && EdgesMatchWaits(ids, waits, edges) && FramesMatchWaits(frames, waits)
    requires p in waits && w.child == waits[p][0].child
    requires w.consumed || w.acked || w.state.WaitRetired? ==> p in ended
    ensures OneWait(ended, waits[p := [w]], edges)
    ensures EdgesMatchWaits(ids, waits[p := [w]], edges)
    ensures FramesMatchWaits(frames, waits[p := [w]])
  {
  }

  lemma PutWaitKeepsTree(s: Store, p: JobId, g: int, w: Wait)
    requires TreeInv(s) && HasWait(s, p, g) && w.child == WaitAt(s, p, g).child
    requires (|| (w.consumed && !WaitAt(s, p, g).consumed) || (w.acked && !WaitAt(s, p, g).acked)
              || (w.state.WaitRetired? && !WaitAt(s, p, g).state.WaitRetired?)) ==> p in EndedSet(s.jobs)
    ensures TreeInv(PutWait(s, p, g, w))
  {
    RewriteWait(EndedSet(s.jobs), s.jobs.Keys, s.frames, s.waits, s.edges, p, w);
    assert s.waits[p][g - 1 := w] == [w];
  }

  lemma MarkReadyKeepsTree(s: Store, p: JobId, g: int)
    requires TreeInv(s)
    ensures TreeInv(MarkReady(s, p, g))
  {
    hide TreeInv;
    if HasWait(s, p, g) && !WaitAt(s, p, g).state.WaitRetired? && !WaitAt(s, p, g).consumed
       && ChildEnded(s, WaitAt(s, p, g)) {
      PutWaitKeepsTree(s, p, g, WaitAt(s, p, g).(state := WaitReady));
    }
  }

  lemma SelfNotBelow(s: Store, id: JobId, ancestor: JobId, n: nat)
    requires DepthBounded(s.frames, s.edges) && Under(s.edges, id, ancestor, n)
    ensures ancestor in s.edges ==> s.edges[ancestor].depth < s.edges[id].depth
    ensures id != ancestor
    decreases n
  {
    if s.edges[id].parent != ancestor {
      SelfNotBelow(s, s.edges[id].parent, ancestor, n - 1);
    }
  }

  lemma ChildOfDescendant(edges: map<JobId, Edge>, c: JobId, ancestor: JobId)
    requires c in edges && (edges[c].parent == ancestor || edges[c].parent in Descendants(edges, ancestor))
    ensures c in Descendants(edges, ancestor)
  {
    if edges[c].parent == ancestor {
      assert Under(edges, c, ancestor, 1);
    } else {
      var n: nat :| Under(edges, edges[c].parent, ancestor, n);
      assert Under(edges, c, ancestor, n + 1);
    }
  }

  /** The same frames in the same places; only their states may differ. */
  ghost predicate SamePlaces(a: map<JobId, Frame>, b: map<JobId, Frame>) {
    && b.Keys == a.Keys
    && forall id :: id in b ==>
         && b[id].root == a[id].root && b[id].parent == a[id].parent && b[id].depth == a[id].depth
         && b[id].generation == a[id].generation && b[id].automatic == a[id].automatic
  }

  /** Some of those frames ended. */
  ghost predicate FramesEnd(a: map<JobId, Frame>, b: map<JobId, Frame>) {
    SamePlaces(a, b) && forall id :: id in b ==> b[id].state.FrameEnded? || b[id].state == a[id].state
  }

  lemma FramesEndKeepsWaits(a: map<JobId, Frame>, b: map<JobId, Frame>, waits: map<JobId, seq<Wait>>)
    requires FramesEnd(a, b) && FramesMatchWaits(a, waits)
    ensures FramesMatchWaits(b, waits)
  {
  }

  lemma SamePlacesKeepRoots(a: map<JobId, Frame>, b: map<JobId, Frame>, edges: map<JobId, Edge>,
                            preparations: map<JobId, Identity>)
    requires SamePlaces(a, b) && Rooted(a, edges, preparations)
    ensures Rooted(b, edges, preparations)
  {
  }

  lemma SamePlacesKeepDepth(a: map<JobId, Frame>, b: map<JobId, Frame>, edges: map<JobId, Edge>)
    requires SamePlaces(a, b) && DepthBounded(a, edges)
    ensures DepthBounded(b, edges)
  {
  }

  lemma MoreEndedKeeps(e: set<JobId>, e': set<JobId>, waits: map<JobId, seq<Wait>>, edges: map<JobId, Edge>,
                       preparations: map<JobId, Identity>)
    requires e <= e'
    ensures OneWait(e, waits, edges) ==> OneWait(e', waits, edges)
    ensures OnePreparation(e, preparations) ==> OnePreparation(e', preparations)
  {
  }

  lemma ClosedKeepsNoOrphans(e: set<JobId>, e': set<JobId>, a: map<JobId, Frame>, b: map<JobId, Frame>,
                             edges: map<JobId, Edge>, id: JobId)
    requires NoOrphans(e, a, edges) && FramesEnd(a, b) && e <= e'
    requires e' == e + {id} + Descendants(edges, id)
    ensures NoOrphans(e', b, edges)
  {
    forall c | c in edges && (edges[c].parent in e' || Awake(b, edges[c].parent))
      ensures c in e'
    {
      if edges[c].parent !in e && edges[c].parent in e' {
        ChildOfDescendant(edges, c, id);
      }
    }
  }

  /** The jobs after ending one tree: its root and its live descendants are ended. */
  lemma CancelJobsEnds(jobs: map<JobId, Job>, frames: map<JobId, Frame>, doomed: set<JobId>, now: Time)
    requires forall id :: id in jobs ==> jobs[id].status.Terminal() || id in frames
    ensures CancelJobs(jobs, frames, doomed, now).Keys == jobs.Keys
    ensures EndedSet(CancelJobs(jobs, frames, doomed, now)) == EndedSet(jobs) + (doomed * jobs.Keys)
  {
    var after := CancelJobs(jobs, frames, doomed, now);
    forall id | id in jobs
      ensures id in EndedSet(after) <==> id in EndedSet(jobs) || id in doomed
    {
      assert id in doomed && !jobs[id].status.Terminal() ==> after[id].status == Cancelled;
    }
  }

  lemma CancelFramesEnds(frames: map<JobId, Frame>, ids: set<JobId>, doomed: set<JobId>)
    ensures FramesEnd(frames, CancelFrames(frames, ids, doomed))
    ensures forall x :: x in frames && CancelFrames(frames, ids, doomed)[x].state.FrameEnded? ==>
              x in doomed || frames[x].state.FrameEnded?
  {
  }

  lemma EndFrameEnds(frames: map<JobId, Frame>, id: JobId, outcome: Outcome, now: Time)
    ensures FramesEnd(frames, EndFrame(frames, id, outcome, now))
    ensures forall x :: x in frames && EndFrame(frames, id, outcome, now)[x].state.FrameEnded? ==>
              x == id || frames[x].state.FrameEnded?
  {
  }

  lemma EndTreeJobs(s: Store, id: JobId, ended: Job, outcome: Outcome, now: Time)
    requires s.edges.Keys <= s.jobs.Keys && id in s.frames && id in s.jobs && ended.status.Terminal()
    requires forall x :: x in s.jobs ==> s.jobs[x].status.Terminal() || x in s.frames
    ensures var t := EndTree(s, id, ended, outcome, now);
      && t.jobs.Keys == s.jobs.Keys
      && EndedSet(t.jobs) == EndedSet(s.jobs) + {id} + Descendants(s.edges, id)
  {
    hide Descendants, CancelJobs, CancelFrames, EndFrame;
    CancelJobsEnds(s.jobs[id := ended], s.frames, Descendants(s.edges, id), now);
  }

  lemma EndTreeFrames(s: Store, id: JobId, ended: Job, outcome: Outcome, now: Time)
    requires id in s.frames
    ensures var t := EndTree(s, id, ended, outcome, now);
      && FramesEnd(s.frames, t.frames)
      && forall x :: x in t.frames && t.frames[x].state.FrameEnded? ==>
           x == id || x in Descendants(s.edges, id) || s.frames[x].state.FrameEnded?
  {
    hide Descendants, CancelJobs, CancelFrames, EndFrame;
    var doomed := Descendants(s.edges, id);
    var ids := s.jobs[id := ended].Keys;
    CancelFramesEnds(s.frames, ids, doomed);
    EndFrameEnds(CancelFrames(s.frames, ids, doomed), id, outcome, now);
  }

  lemma EndingKeepsMatch(ids: set<JobId>, e: set<JobId>, e': set<JobId>, a: map<JobId, Frame>, b: map<JobId, Frame>)
    requires FramesMatchJobs(ids, e, a) && FramesEnd(a, b) && e <= e' <= ids
    requires forall x :: x in b && b[x].state.FrameEnded? ==> x in e' || a[x].state.FrameEnded?
    ensures FramesMatchJobs(ids, e', b)
  {
  }

  /** Ending a job together with everything below it keeps the tree. */
  lemma EndingKeepsTree(s: Store, t: Store, id: JobId)
    requires TreeInv(s) && id in s.jobs
    requires t.waits == s.waits && t.edges == s.edges && t.preparations == s.preparations
    requires t.jobs.Keys == s.jobs.Keys && FramesEnd(s.frames, t.frames)
    requires EndedSet(t.jobs) == EndedSet(s.jobs) + {id} + Descendants(s.edges, id)
    requires forall x :: x in t.frames && t.frames[x].state.FrameEnded? ==>
      x in EndedSet(t.jobs) || s.frames[x].state.FrameEnded?
    ensures TreeInv(t)
  {
    assert SamePlaces(s.frames, t.frames) by { hide TreeInv; }
    hide OneWait, EdgesMatchWaits, FramesMatchWaits, DepthBounded, Rooted, NoOrphans, OnePreparation, FramesMatchJobs,
      FramesEnd, SamePlaces, EndedSet, Descendants;
    EndingKeepsMatch(s.jobs.Keys, EndedSet(s.jobs), EndedSet(t.jobs), s.frames, t.frames) by {
      assert EdgesMatchWaits(s.jobs.Keys, s.waits, s.edges);
      EdgesAreJobs(s);
    }
    FramesEndKeepsWaits(s.frames, t.frames, s.waits);
    SamePlacesKeepRoots(s.frames, t.frames, s.edges, s.preparations);
    SamePlacesKeepDepth(s.frames, t.frames, s.edges);
    MoreEndedKeeps(EndedSet(s.jobs), EndedSet(t.jobs), s.waits, s.edges, s.preparations);
    ClosedKeepsNoOrphans(EndedSet(s.jobs), EndedSet(t.jobs), s.frames, t.frames, s.edges, id);
  }

  lemma EdgesAreJobs(s: Store)
    requires TreeInv(s)
    ensures s.edges.Keys <= s.jobs.Keys && EndedSet(s.jobs) <= s.jobs.Keys && s.frames.Keys <= s.jobs.Keys
    ensures forall x :: x in s.jobs ==> s.jobs[x].status.Terminal() || x in s.frames
  {
    hide OneWait, FramesMatchWaits, DepthBounded, Rooted, NoOrphans, OnePreparation;
  }

  lemma EndTreeKeepsTree(s: Store, id: JobId, ended: Job, outcome: Outcome, now: Time)
    requires TreeInv(s) && id in s.frames && ended.status.Terminal()
    ensures TreeInv(EndTree(s, id, ended, outcome, now))
  {
    var t := EndTree(s, id, ended, outcome, now);
    EdgesAreJobs(s);
    EndTreeJobs(s, id, ended, outcome, now);
    EndTreeFrames(s, id, ended, outcome, now);
    assert t.waits == s.waits && t.edges == s.edges && t.preparations == s.preparations;
    hide EndTree, TreeInv, Descendants, EndedSet, FramesEnd, SamePlaces;
    EndingKeepsTree(s, t, id);
  }

  // ----- single-row changes --------------------------------------------------------

  lemma PutJobKeepsEnded(jobs: map<JobId, Job>, id: JobId, job: Job)
    requires id in jobs && job.status.Terminal() == jobs[id].status.Terminal()
    ensures jobs[id := job].Keys == jobs.Keys && EndedSet(jobs[id := job]) == EndedSet(jobs)
  {
  }

  lemma PutJobEnds(jobs: map<JobId, Job>, id: JobId, job: Job)
    requires id in jobs && job.status.Terminal()
    ensures jobs[id := job].Keys == jobs.Keys && EndedSet(jobs[id := job]) == EndedSet(jobs) + {id}
  {
  }

  ghost predicate ChildrenEnded(ended: set<JobId>, edges: map<JobId, Edge>, id: JobId) {
    forall c :: c in edges && edges[c].parent == id ==> c in ended
  }

  /** A job that may be dispatched has no live child. */
  lemma GateMeansChildrenEnded(s: Store, id: JobId, now: Time)
    requires TreeInv(s) && Live(s, id) && FrameGate(s, id, now)
    ensures ChildrenEnded(EndedSet(s.jobs), s.edges, id)
  {
    hide FramesMatchWaits, DepthBounded, Rooted, OnePreparation;
    assert id in s.frames;
  }

  lemma ShownChildIsOnlyChild(s: Store, id: JobId)
    requires TreeInv(s) && ShownChild(s, id).Some?
    ensures ChildrenEnded(EndedSet(s.jobs), s.edges, id)
  {
    hide FramesMatchWaits, DepthBounded, Rooted, OnePreparation, NoOrphans;
  }

  lemma EndLeafKeepsTree(s: Store, t: Store, id: JobId)
    requires TreeInv(s) && id in s.jobs && ChildrenEnded(EndedSet(s.jobs), s.edges, id)
    requires t.frames == s.frames && t.waits == s.waits && t.edges == s.edges && t.preparations == s.preparations
    requires t.jobs.Keys == s.jobs.Keys && EndedSet(t.jobs) == EndedSet(s.jobs) + {id}
    ensures TreeInv(t)
  {
    hide FramesMatchWaits, DepthBounded, Rooted, EndedSet;
    assert OneWait(EndedSet(s.jobs) + {id}, s.waits, s.edges);
  }

  lemma MoveFrameKeepsFrames(ids: set<JobId>, ended: set<JobId>, a: map<JobId, Frame>, waits: map<JobId, seq<Wait>>,
                             edges: map<JobId, Edge>, id: JobId, state: FrameState)
    requires FramesMatchJobs(ids, ended, a) && FramesMatchWaits(a, waits) && NoOrphans(ended, a, edges)
    requires id in a && !state.FrameEnded?
    requires state.FrameRunning? || state.FrameQueued? ==> ChildrenEnded(ended, edges, id)
    requires state.FrameWaiting? || state.FrameSuspended? ==> id in waits
    ensures var b := a[id := a[id].(state := state)];
      SamePlaces(a, b) && FramesMatchJobs(ids, ended, b) && FramesMatchWaits(b, waits) && NoOrphans(ended, b, edges)
  {
  }

  /** The state of one frame changes: to running with no live child, or to sleep. */
  lemma MoveFrameKeepsTree(s: Store, id: JobId, state: FrameState)
    requires TreeInv(s) && id in s.frames && !state.FrameEnded?
    requires state.FrameRunning? || state.FrameQueued? ==> ChildrenEnded(EndedSet(s.jobs), s.edges, id)
    requires state.FrameWaiting? || state.FrameSuspended? ==> id in s.waits
    ensures TreeInv(s.(frames := s.frames[id := s.frames[id].(state := state)]))
  {
    hide OneWait, EdgesMatchWaits, FramesMatchJobs, FramesMatchWaits, DepthBounded, Rooted, NoOrphans, OnePreparation,
      EndedSet, ChildrenEnded, SamePlaces;
    var frames := s.frames[id := s.frames[id].(state := state)];
    MoveFrameKeepsFrames(s.jobs.Keys, EndedSet(s.jobs), s.frames, s.waits, s.edges, id, state);
    SamePlacesKeepRoots(s.frames, frames, s.edges, s.preparations);
    SamePlacesKeepDepth(s.frames, frames, s.edges);
  }

  lemma DropFrameKeepsFrames(ids: set<JobId>, ended: set<JobId>, a: map<JobId, Frame>, waits: map<JobId, seq<Wait>>,
                             edges: map<JobId, Edge>, c: JobId)
    requires FramesMatchJobs(ids, ended, a) && FramesMatchWaits(a, waits) && NoOrphans(ended, a, edges)
    requires DepthBounded(a, edges)
    requires c in edges && c in ended
    ensures FramesMatchJobs(ids, ended, a - {c}) && FramesMatchWaits(a - {c}, waits)
    ensures NoOrphans(ended, a - {c}, edges) && DepthBounded(a - {c}, edges)
  {
  }

  lemma DropFrameKeepsRoots(a: map<JobId, Frame>, edges: map<JobId, Edge>, preparations: map<JobId, Identity>, c: JobId)
    requires Rooted(a, edges, preparations) && c in edges
    ensures Rooted(a - {c}, edges, preparations)
  {
  }

  /** The frame row of an ended child can be dropped. */
  lemma DropFrameKeepsTree(s: Store, c: JobId)
    requires TreeInv(s) && c in s.edges && c in EndedSet(s.jobs)
    ensures TreeInv(s.(frames := s.frames - {c}))
  {
    hide OneWait, EdgesMatchWaits, FramesMatchJobs, FramesMatchWaits, DepthBounded, Rooted, NoOrphans, OnePreparation,
      EndedSet;
    DropFrameKeepsFrames(s.jobs.Keys, EndedSet(s.jobs), s.frames, s.waits, s.edges, c);
    DropFrameKeepsRoots(s.frames, s.edges, s.preparations, c);
  }

  // ----- new rows ------------------------------------------------------------------

  lemma NewRootKeepsFrames(ids: set<JobId>, ended: set<JobId>, a: map<JobId, Frame>, waits: map<JobId, seq<Wait>>,
                           edges: map<JobId, Edge>, id: JobId, f: Frame)
    requires FramesMatchJobs(ids, ended, a) && FramesMatchWaits(a, waits) && NoOrphans(ended, a, edges)
    requires DepthBounded(a, edges)
    requires EdgesMatchWaits(ids, waits, edges)
    requires id !in ids && f.generation == 0 && f.depth == 0 && f.state.FrameQueued?
    ensures var b := a[id := f];
      && FramesMatchJobs(ids + {id}, ended, b) && FramesMatchWaits(b, waits) && NoOrphans(ended, b, edges)
      && DepthBounded(b, edges) && EdgesMatchWaits(ids + {id}, waits, edges)
  {
  }

  lemma NewRootIsRooted(a: map<JobId, Frame>, edges: map<JobId, Edge>, preparations: map<JobId, Identity>,
                        preparations': map<JobId, Identity>, id: JobId, f: Frame)
    requires Rooted(a, edges, preparations) && id !in a && id !in edges && id !in preparations
    requires f.root == id && f.parent.None?
    requires if f.automatic then preparations'.Keys == preparations.Keys + {id} else preparations' == preparations
    ensures Rooted(a[id := f], edges, preparations')
  {
  }

  /** Admitting a root, public or automatic. */
  lemma NewRootKeepsTree(s: Store, t: Store, id: JobId)
    requires TreeInv(s) && id !in s.jobs && id in t.jobs && !t.jobs[id].status.Terminal()
    requires t.jobs == s.jobs[id := t.jobs[id]] && t.waits == s.waits && t.edges == s.edges
    requires id in t.frames && t.frames == s.frames[id := t.frames[id]]
    requires exists deadline, automatic :: t.frames[id] == RootFrame(id, deadline, automatic)
    requires if t.frames[id].automatic
             then t.preparations.Keys == s.preparations.Keys + {id} && s.preparations.Keys <= EndedSet(s.jobs)
             else t.preparations == s.preparations
    ensures TreeInv(t)
  {
    EdgesAreJobs(s);
    assert EndedSet(t.jobs) == EndedSet(s.jobs) && t.jobs.Keys == s.jobs.Keys + {id} by { hide TreeInv; }
    assert id !in s.preparations by {
      hide OneWait, EdgesMatchWaits, FramesMatchWaits, DepthBounded, NoOrphans, OnePreparation, EndedSet;
    }
    assert OnePreparation(EndedSet(t.jobs), t.preparations) by {
      hide OneWait, EdgesMatchWaits, FramesMatchWaits, DepthBounded, NoOrphans, Rooted, FramesMatchJobs;
    }
    hide OneWait, EdgesMatchWaits, FramesMatchJobs, FramesMatchWaits, DepthBounded, Rooted, NoOrphans, OnePreparation,
      EndedSet;
    NewRootKeepsFrames(s.jobs.Keys, EndedSet(s.jobs), s.frames, s.waits, s.edges, id, t.frames[id]);
    NewRootIsRooted(s.frames, s.edges, s.preparations, t.preparations, id, t.frames[id]);
  }

  /** The five tables around one newly registered child. */
  lemma NewChildKeepsWaits(ids: set<JobId>, ended: set<JobId>, waits: map<JobId, seq<Wait>>, edges: map<JobId, Edge>,
                           p: JobId, c: JobId, e: Edge, w: Wait)
    requires OneWait(ended, waits, edges) && EdgesMatchWaits(ids, waits, edges)
    requires p in ids && c !in ids && p !in waits && e.parent == p && e.generation == 1
    requires w.child == c && !w.consumed && !w.acked && w.state.WaitOpen?
    ensures OneWait(ended, waits[p := [w]], edges[c := e])
    ensures EdgesMatchWaits(ids + {c}, waits[p := [w]], edges[c := e])
  {
  }

  lemma NewChildKeepsFrames(ids: set<JobId>, ended: set<JobId>, a: map<JobId, Frame>, waits: map<JobId, seq<Wait>>,
                            edges: map<JobId, Edge>, p: JobId, c: JobId, f: Frame, e: Edge, w: Wait)
    requires FramesMatchJobs(ids, ended, a) && FramesMatchWaits(a, waits) && NoOrphans(ended, a, edges)
    requires DepthBounded(a, edges)
    requires EdgesMatchWaits(ids, waits, edges)
    requires p in ids && p !in ended && p in a && c !in ids && p !in waits && e.parent == p
    requires f.generation == 0 && f.state.FrameQueued? && f.depth == e.depth == a[p].depth + 1 <= MAX_ROOT_DEPTH
    ensures var b := a[c := f][p := a[p].(generation := 1, state := FrameWaiting)];
      && FramesMatchJobs(ids + {c}, ended, b) && FramesMatchWaits(b, waits[p := [w]])
      && NoOrphans(ended, b, edges[c := e])
      && DepthBounded(b, edges[c := e])
  {
  }

  lemma NewChildIsRooted(a: map<JobId, Frame>, edges: map<JobId, Edge>, preparations: map<JobId, Identity>,
                         p: JobId, c: JobId, f: Frame, e: Edge)
    requires Rooted(a, edges, preparations) && p in a && c !in a && c !in edges && c !in preparations && e.parent == p
    requires f.root == a[p].root && f.parent == Some(p) && f.automatic == a[f.root].automatic
    ensures Rooted(a[c := f][p := a[p].(generation := 1, state := FrameWaiting)], edges[c := e], preparations)
  {
  }

  /** A parent that is still live has never waited before. */
  lemma LiveParentsNeverWaited(s: Store, p: JobId)
    requires TreeInv(s) && Live(s, p) && p in s.waits
    ensures WaitCount(s, p) == 1 && !WaitAt(s, p, 1).consumed
  {
    hide FramesMatchWaits, DepthBounded, Rooted, NoOrphans, OnePreparation, FramesMatchJobs;
  }

  // ----- reports -------------------------------------------------------------------

  /** The three ways a report is committed. */
  lemma CommitIs(cfg: Config, s: Store, id: JobId, f: Report, status: Status, acknowledged: bool, late: Time)
    requires id in s.jobs
    ensures var job := FinishedJob(cfg, s.jobs[id], f, status, late);
      var ended := job.(result := Some(|s.outbox|));
      var s1 := s.(outbox := s.outbox + [Row(id, [])]);
      CommitReport(cfg, s, id, f, status, acknowledged, late) ==
        if !status.Terminal() then TrimIndex(s.(jobs := s.jobs[id := job]))
        else if acknowledged then TrimIndex(Acknowledge(s1.(jobs := s1.jobs[id := ended]), id))
        else TrimIndex(EndTree(s1, id, ended, Outcome(EndingOf(status, f.reason), ended.evidence, ended.result), late))
  {
    hide FinishedJob, TrimIndex, EndTree, EndingOf, Acknowledge;
  }
}
