/** How a submission or a preparation is answered, and what admitting it adds, said of the rows
    themselves. */
module BrokerAdmissions {
  import opened Prelude
  import opened BrokerModel
  import opened BrokerSteps
  import opened BrokerInvariant
  import opened BrokerTree
  import opened BrokerTreeSteps
  import opened BrokerCalm
  import opened BrokerCalmSteps
  import opened BrokerCache
  import opened BrokerSafety
  import opened BrokerEndings

  // ----- submissions -----------------------------------------------------------------

  /** The inquiry's identity is indexed, and this job is its current generation. */
  ghost predicate Prior(s: Store, r: Request, p: JobId) {
    && r.identity.Some? && r.identity.value in s.index && s.index[r.identity.value] == p && p in s.jobs
  }

  /** The generation that was judged is this one, and its record has not changed since. */
  ghost predicate Judged(r: Request, p: JobId, verdict: bool) {
    match r.snapshot
    case Some(snapshot) => snapshot.job == p && snapshot.recordUnchanged && snapshot.stillFresh == verdict
    case None => false
  }

  /** Nobody may ask for a newer generation yet: this one is live, still holds a slot, or ended
      without anything worth serving. */
  ghost predicate Current(s: Store, p: JobId)
    requires p in s.jobs
  {
    s.jobs[p].status !in {Completed, Partial, Failed, Cancelled} || p in s.slots || !Serves(s.jobs[p])
  }

  ghost predicate ServedBy(s: Store, r: Request, p: JobId) {
    Prior(s, r, p) && r.authorized && (Current(s, p) || Judged(r, p, true))
  }

  /** No generation is in the way: there is none, or it is an answer that was judged stale. */
  ghost predicate MayRenew(s: Store, r: Request) {
    forall p :: Prior(s, r, p) ==> r.authorized && !Current(s, p) && Judged(r, p, false)
  }

  /** The jobs that count against admission. */
  ghost function PublicJobs(s: Store): set<JobId> {
    set id | id in s.jobs && id !in s.edges && id !in s.preparations
             && (s.jobs[id].status !in {Completed, Partial, Failed, Cancelled} || id in s.slots)
  }

  ghost predicate HasRoom(cfg: Config, s: Store, r: Request) {
    && r.dispatching && r.skillKnown && r.hintsResolve && r.fitsStorage
    && |PublicJobs(s)| < 6 && |PublicJobs(s)| < cfg.hardLimit
  }

  /** A new root: its record, its frame, and the index entry of its inquiry. */
  ghost predicate RootAdded(s: Store, t: Store, r: Request, now: Time) {
    && t == s.(jobs := t.jobs, frames := t.frames, index := t.index) && r.id in t.jobs
    && t.jobs == s.jobs[r.id := Job(r.scope, Queued, 0, "", [], [], [], None, t.jobs[r.id].hints, Some(now + 300.0),
                                    r.identity, NoReason, now, 0.0, 0.0)]
    && t.frames == s.frames[r.id := Frame(r.id, None, 0, 0, now + 300.0, 0, false, FrameQueued)]
    && t.index == (if r.identity.Some? then s.index[r.identity.value := r.id] else s.index)
  }

  /** Every packet the previous generation or the request names, each once, the former first. */
  ghost predicate HintsMerged(s: Store, r: Request, hints: seq<PacketId>) {
    && Distinct(hints)
    && (forall x :: x in hints <==> x in r.hints || exists p :: Prior(s, r, p) && x in s.jobs[p].hints)
    && forall p :: Prior(s, r, p) && Distinct(s.jobs[p].hints) ==> s.jobs[p].hints <= hints
  }

  lemma CacheReplyIs(s: Store, r: Request, p: JobId)
    requires Prior(s, r, p)
    ensures CacheReply(s, r, p) == Some(Existing(p)) <==> ServedBy(s, r, p)
    ensures CacheReply(s, r, p).None? <==> MayRenew(s, r)
    ensures CacheReply(s, r, p).None? || CacheReply(s, r, p) == Some(Existing(p)) || CacheReply(s, r,
      p) == Some(Refused)
  {
    assert CacheEligible(s.jobs[p]) <==> Serves(s.jobs[p]) by {
      BlankIsWordless();
      hide Blank, Wordless;
    }
    assert forall q :: Prior(s, r, q) ==> q == p;
    hide CacheEligible, Serves;
  }

  lemma LoadIs(s: Store)
    ensures PublicJobs(s) == PublicLoad(s)
  {
    forall id
      ensures id in PublicJobs(s) <==> id in PublicLoad(s)
    {
    }
    hide PublicJobs, PublicLoad;
  }

  lemma {:induction false} DedupKeepsPrefix<T(!new)>(a: seq<T>, b: seq<T>)
    requires Distinct(a)
    ensures a <= Dedup(a + b)
    decreases |b|
  {
    hide Distinct, Dedup;
    if b == [] {
      assert a + b == a;
      DedupOfDistinct(a);
    } else {
      var c := a + b;
      assert c[..|c| - 1] == a + b[..|b| - 1];
      DedupKeepsPrefix(a, b[..|b| - 1]);
      DedupGrows(c);
    }
  }

  lemma DedupGrows<T(!new)>(items: seq<T>)
    requires items != []
    ensures Dedup(items[..|items| - 1]) <= Dedup(items)
  {
    hide Distinct;
  }

  lemma IndexedIs(s: Store, r: Request)
    ensures forall p :: Prior(s, r, p) <==> Indexed(s, r.identity) == Some(p)
  {
  }

  lemma HintsAre(s: Store, r: Request)
    ensures HintsMerged(s, r, RefreshedHints(s, r))
  {
    IndexedIs(s, r);
    if Indexed(s, r.identity).Some? {
      var p := Indexed(s, r.identity).value;
      assert RefreshedHints(s, r) == Dedup(s.jobs[p].hints + Dedup(r.hints));
      if Distinct(s.jobs[p].hints) {
        DedupKeepsPrefix(s.jobs[p].hints, Dedup(r.hints));
      }
      assert forall q :: Prior(s, r, q) ==> q == p;
      assert forall x :: x in s.jobs[p].hints + Dedup(r.hints) <==> x in s.jobs[p].hints || x in r.hints;
    }
  }

  /** The reply to a submission, both ways: the current generation serves it exactly when it is
      authorized and nobody may renew it or it was judged fresh; a new generation is admitted
      exactly when none is in the way and there is room; everything else is refused. */
  lemma SubmissionMeans(cfg: Config, s: Store, r: Request, now: Time)
    ensures var (t, reply) := Submit(cfg, s, r, now);
      && (forall p :: reply == Existing(p) <==> ServedBy(s, r, p))
      && (reply.Admitted? <==> MayRenew(s, r) && HasRoom(cfg, s, r))
      && if reply.Admitted?
         then reply.job == r.id && RootAdded(s, t, r, now) && HintsMerged(s, r, t.jobs[r.id].hints) else t == s
  {
    LoadIs(s);
    HintsAre(s, r);
    hide PublicLoad, PublicJobs, RefreshedHints, HintsMerged, Serves;
    IndexedIs(s, r);
    hide Indexed;
    if Indexed(s, r.identity).Some? {
      var p := Indexed(s, r.identity).value;
      CacheReplyIs(s, r, p);
      assert forall q :: ServedBy(s, r, q) ==> q == p;
      hide CacheReply, ServedBy, MayRenew;
    }
  }

  // ----- preparations ----------------------------------------------------------------

  /** A live automatic root of other work. */
  ghost predicate Superseded(s: Store, j: JobId, work: Identity) {
    && j in s.preparations && s.preparations[j] != work
    && j in s.jobs && s.jobs[j].status !in {Completed, Partial, Failed, Cancelled}
  }

  lemma SupersededIs(s: Store, j: JobId, work: Identity)
    requires TreeInv(s)
    ensures StalePreparation(s, j, work) <==> Superseded(s, j, work)
  {
    hide OneWait, EdgesMatchWaits, FramesMatchWaits, DepthBounded, NoOrphans, OnePreparation, FramesMatchJobs;
  }

  lemma OneSuperseded(s: Store, a: JobId, b: JobId, work: Identity)
    requires TreeInv(s) && Superseded(s, a, work) && Superseded(s, b, work)
    ensures a == b
  {
    hide OneWait, EdgesMatchWaits, FramesMatchWaits, DepthBounded, NoOrphans, FramesMatchJobs, Rooted;
  }

  /** The store after the superseded preparation, if there is one, was withdrawn. */
  ghost predicate SupersededWithdrawn(s: Store, m: Store, work: Identity, now: Time) {
    && ((forall j :: !Superseded(s, j, work)) ==> m == s)
    && forall j :: Superseded(s, j, work) ==>
         TreeEnded(s, m, j, Withdrawn(s.jobs[j], Other("preparation_source_changed"), now),
                   Outcome(EndedAs(Cancelled), [], None), now)
  }

  lemma {:induction false} EndedAreSkipped(s: Store, order: seq<JobId>, reason: Reason, now: Time)
    requires forall j :: j in order ==> !Live(s, j)
    ensures CancelAll(s, order, reason, now) == s
    decreases |order|
  {
    hide EndTree, Live;
    if order != [] {
      assert order[0] in order;
      assert forall j :: j in order[1..] ==> j in order;
      EndedAreSkipped(s, order[1..], reason, now);
    }
  }

  /** At most one preparation is live, so at most one is withdrawn. */
  lemma OneListed(s: Store, order: seq<JobId>, work: Identity)
    requires TreeInv(s) && (forall j :: j in order <==> Superseded(s, j, work)) && order != []
    ensures Superseded(s, order[0], work) && Live(s, order[0]) && forall j :: Superseded(s, j, work) ==> j == order[0]
  {
    assert order[0] in order;
    forall j | Superseded(s, j, work)
      ensures j == order[0]
    {
      OneSuperseded(s, j, order[0], work);
    }
    hide TreeInv;
  }

  lemma FirstWithdrawn(s: Store, order: seq<JobId>, reason: Reason, now: Time)
    requires order != [] && Live(s, order[0]) && (forall j :: j in order ==> j == order[0])
    requires TreeInv(s)
    ensures var m := CancelAll(s, order, reason, now);
      TreeEnded(s, m, order[0], Withdrawn(s.jobs[order[0]], reason, now), Outcome(EndedAs(Cancelled), [], None), now)
  {
    var id := order[0];
    LiveHaveFrames(s);
    hide TreeInv, EndTree, TreeEnded;
    var ended, outcome := CancelledJob(s.jobs[id], reason, now), Outcome(EndedAs(Cancelled), [], None);
    var m := EndTree(s, id, ended, outcome, now);
    EndTreeMeans(s, id, ended, outcome, now);
    EndedNotLive(s, m, id, ended, outcome, now);
    assert forall j :: j in order[1..] ==> j in order;
    EndedAreSkipped(m, order[1..], reason, now);
  }

  lemma CancelAllWithdraws(s: Store, order: seq<JobId>, work: Identity, now: Time)
    requires TreeInv(s) && forall j :: j in order <==> Superseded(s, j, work)
    ensures SupersededWithdrawn(s, CancelAll(s, order, Other("preparation_source_changed"), now), work, now)
  {
    if order == [] {
      hide TreeInv, Superseded, TreeEnded;
    } else {
      OneListed(s, order, work);
      hide TreeInv, Superseded, Live, TreeEnded, CancelAll;
      FirstWithdrawn(s, order, Other("preparation_source_changed"), now);
    }
  }

  lemma EndedNotLive(s: Store, m: Store, id: JobId, ended: Job, outcome: Outcome, now: Time)
    requires TreeEnded(s, m, id, ended, outcome, now) && ended.status.Terminal()
    ensures !Live(m, id)
  {
    hide JobsBelowEnded, FramesBelowEnded;
  }

  ghost predicate PreparationAdded(m: Store, t: Store, id: JobId, scope: Scope, work: Identity, deadline: Time,
                                   now: Time) {
    t == m.(jobs := m.jobs[id := Job(scope, Queued, 0, "", [], [], [], None, [], Some(deadline), None, NoReason, now,
      0.0, 0.0)],
            frames := m.frames[id := Frame(id, None, 0, 0, deadline, 0, true, FrameQueued)],
            preparations := m.preparations[id := work])
  }

  ghost predicate KnownWork(s: Store, work: Identity) {
    exists j :: j in s.preparations && s.preparations[j] == work
  }

  /** Refused after the window or without permission, and the work that is known is not admitted
      again; otherwise the superseded preparation is withdrawn, for good, and a new automatic
      root is admitted exactly if it fits. */
  ghost predicate PreparedAs(s: Store, t: Store, reply: Reply, id: JobId, scope: Scope, work: Identity, deadline: Time,
                             now: Time, permitted: bool, fits: bool) {
    if now >= deadline || !permitted then reply == Refused && t == s
    else if KnownWork(s, work) then
      t == s && reply.Existing? && reply.job in s.preparations && s.preparations[reply.job] == work
    else exists m :: SupersededWithdrawn(s, m, work, now)
                     && if fits then reply == Admitted(id) && PreparationAdded(m, t, id, scope, work, deadline, now)
                        else reply == Refused && t == m
  }

  lemma PreparationMeans(s: Store, id: JobId, scope: Scope, work: Identity, deadline: Time, now: Time, permitted: bool,
                         fits: bool, stale: seq<JobId>)
    requires TreeInv(s) && forall j :: j in stale <==> StalePreparation(s, j, work)
    ensures var (t, reply) := Prepare(s, id, scope, work, deadline, now, permitted, fits, stale);
      PreparedAs(s, t, reply, id, scope, work, deadline, now, permitted, fits)
  {
    forall j
      ensures j in stale <==> Superseded(s, j, work)
    {
      SupersededIs(s, j, work);
    }
    hide TreeInv, Superseded, SupersededWithdrawn, CancelAll, StalePreparation;
    CancelAllWithdraws(s, stale, work, now);
  }
}
