/** The queries a transaction runs over the tables: children, answers, due rows, the
    dispatch order. Each is a loop proved against what the transaction functions assume. */
module BrokerTables {
  import opened Prelude
  import opened BrokerModel
  import opened BrokerSteps
  import opened BrokerInvariant
  import opened BrokerTree
  import opened BrokerCalm
  import opened BrokerCalmSteps
  import opened BrokerSafety
  import opened BrokerSelection
  import opened BrokerRuns

  lemma DistinctWithin<T(!new)>(items: seq<T>, within: set<T>)
    requires Distinct(items) && SetOf(items) <= within
    ensures |items| <= |within| && |SetOf(items)| == |items|
    decreases |items|
  {
    if items != [] {
      var init, last := items[..|items| - 1], items[|items| - 1];
      assert items == init + [last];
      assert SetOf(items) == SetOf(init) + {last};
      DistinctWithin(init, within);
      assert last !in SetOf(init);
      SubsetSize(SetOf(items), within);
    } else {
      assert SetOf(items) == {};
    }
  }

  lemma NonEmpty(items: set<JobId>)
    requires items != {}
    ensures exists x :: x in items
  {
    if forall x :: x !in items {
      assert false;
    }
  }

  lemma DistinctConcat<T>(a: seq<T>, b: seq<T>)
    requires Distinct(a) && Distinct(b) && forall x :: x in b ==> x !in a
    ensures Distinct(a + b)
  {
    forall i, j | 0 <= i < j < |a + b|
      ensures (a + b)[i] != (a + b)[j]
    {
      if j >= |a| {
        assert b[j - |a|] in b;
      }
    }
  }

  // ----- the tree below a job ------------------------------------------------------

  /** SELECT child_id FROM pa1_frame_children WHERE parent_id=?. */
  method ChildRows(edges: map<JobId, Edge>, parent: JobId) returns (children: seq<JobId>)
    ensures Distinct(children)
    ensures forall c :: c in children <==> c in edges && edges[c].parent == parent
  {
    children := [];
    var todo := edges.Keys;
    while todo != {}
      invariant todo <= edges.Keys && Distinct(children)
      invariant forall c :: c in children <==> c in edges && c !in todo && edges[c].parent == parent
      decreases |todo|
    {
      NonEmpty(todo);
      var c :| c in todo;
      todo := todo - {c};
      if edges[c].parent == parent {
        children := children + [c];
      }
    }
  }

  /** The worklist after `i` rows were expanded: distinct rows below the parent, closed under
      children of the parent and of the expanded rows, each reached from one of those. */
  ghost predicate FoundSoFar(edges: map<JobId, Edge>, parent: JobId, found: seq<JobId>, i: int) {
    && 0 <= i <= |found| && Distinct(found)
    && (forall x :: x in found ==> x in edges && x in Descendants(edges, parent))
    && (forall c :: c in edges && edges[c].parent == parent ==> c in found)
    && (forall c :: c in edges && edges[c].parent in found[..i] ==> c in found)
    && (forall x :: x in found ==> edges[x].parent == parent || edges[x].parent in found[..i])
  }

  lemma ChildrenFoundFirst(edges: map<JobId, Edge>, parent: JobId, found: seq<JobId>)
    requires Distinct(found) && forall c :: c in found <==> c in edges && edges[c].parent == parent
    ensures FoundSoFar(edges, parent, found, 0)
  {
    hide Descendants;
    forall x | x in found
      ensures x in Descendants(edges, parent)
    {
      ChildOfDescendant(edges, x, parent);
    }
  }

  lemma FoundAreEdges(edges: map<JobId, Edge>, parent: JobId, found: seq<JobId>, i: int)
    requires FoundSoFar(edges, parent, found, i)
    ensures Distinct(found) && SetOf(found) <= edges.Keys
  {
    hide Descendants;
    forall x | x in SetOf(found)
      ensures x in edges.Keys
    {
      assert x in found;
    }
  }

  lemma FoundGrows(edges: map<JobId, Edge>, parent: JobId, found: seq<JobId>, i: int, children: seq<JobId>)
    requires FoundSoFar(edges, parent, found, i) && i < |found| && parent !in Descendants(edges, parent)
    requires Distinct(children) && forall c :: c in children <==> c in edges && edges[c].parent == found[i]
    ensures FoundSoFar(edges, parent, found + children, i + 1)
  {
    hide Descendants;
    var all := found + children;
    assert found[i] in found;
    assert all[..i + 1] == found[..i] + [found[i]];
    forall y | y in found
      ensures edges[y].parent != found[i]
    {
      if edges[y].parent != parent {
        var k :| 0 <= k < i && found[k] == edges[y].parent;
      }
    }
    forall x | x in children
      ensures x in Descendants(edges, parent)
    {
      ChildOfDescendant(edges, x, parent);
    }
    assert forall x :: x in children ==> edges[x].parent == found[i];
    DistinctConcat(found, children);
  }

  lemma FoundAll(edges: map<JobId, Edge>, parent: JobId, found: seq<JobId>)
    requires FoundSoFar(edges, parent, found, |found|)
    ensures SetOf(found) == Descendants(edges, parent)
  {
    assert found[..|found|] == found;
    forall x | x in Descendants(edges, parent)
      ensures x in found
    {
      var n: nat :| Under(edges, x, parent, n);
      FoundByDepth(edges, parent, found, x, n);
    }
    hide Descendants;
    forall x | x in SetOf(found)
      ensures x in Descendants(edges, parent)
    {
      assert x in found;
    }
  }

  lemma FoundByDepth(edges: map<JobId, Edge>, parent: JobId, found: seq<JobId>, x: JobId, n: nat)
    requires FoundSoFar(edges, parent, found, |found|) && Under(edges, x, parent, n)
    ensures x in found
    decreases n
  {
    assert found[..|found|] == found;
    if edges[x].parent != parent {
      FoundByDepth(edges, parent, found, edges[x].parent, n - 1);
    }
  }

  lemma NothingCancelled(jobs: map<JobId, Job>, frames: map<JobId, Frame>, now: Time)
    ensures CancelJobs(jobs, frames, {}, now) == jobs && CancelFrames(frames, jobs.Keys, {}) == frames
  {
  }

  /** One more row of the cascade. */
  lemma CancelOneMore(jobs: map<JobId, Job>, frames: map<JobId, Frame>, rows: seq<JobId>, k: int, now: Time)
    requires 0 <= k < |rows| && Distinct(rows)
    ensures var id, done, more := rows[k], SetOf(rows[..k]), SetOf(rows[..k + 1]);
      var a, b := CancelJobs(jobs, frames, done, now), CancelFrames(frames, jobs.Keys, done);
      && a.Keys == jobs.Keys && b.Keys == frames.Keys
      && (id in jobs ==> a[id] == jobs[id]) && (id in frames ==> b[id] == frames[id])
      && CancelJobs(jobs, frames, more, now) ==
           (if id in jobs && id in frames && !jobs[id].status.Terminal()
            then a[id := CancelledJob(jobs[id], Other("parent_terminal"), now)] else a)
      && CancelFrames(frames, jobs.Keys, more) ==
           (if id in jobs && id in frames && !frames[id].state.FrameEnded?
            then b[id := frames[id].(state := FrameEnded(Outcome(EndedAs(Cancelled), [], None)))] else b)
  {
    var id := rows[k];
    assert rows[..k + 1] == rows[..k] + [id];
    assert id !in rows[..k];
    assert SetOf(rows[..k + 1]) == SetOf(rows[..k]) + {id};
    CancelMoreJobs(jobs, frames, SetOf(rows[..k]), id, now);
    CancelMoreFrames(jobs, frames, SetOf(rows[..k]), id);
    hide CancelJobs, CancelFrames, CancelledJob;
  }

  lemma CancelMoreJobs(jobs: map<JobId, Job>, frames: map<JobId, Frame>, done: set<JobId>, id: JobId, now: Time)
    requires id !in done
    ensures var a := CancelJobs(jobs, frames, done, now);
      a.Keys == jobs.Keys && (id in jobs ==> a[id] == jobs[id])
      && CancelJobs(jobs, frames, done + {id}, now) ==
           (if id in jobs && id in frames && !jobs[id].status.Terminal()
            then a[id := CancelledJob(jobs[id], Other("parent_terminal"), now)] else a)
  {
  }

  lemma CancelMoreFrames(jobs: map<JobId, Job>, frames: map<JobId, Frame>, done: set<JobId>, id: JobId)
    requires id !in done
    ensures var b := CancelFrames(frames, jobs.Keys, done);
      b.Keys == frames.Keys && (id in frames ==> b[id] == frames[id])
      && CancelFrames(frames, jobs.Keys, done + {id}) ==
           (if id in jobs && id in frames && !frames[id].state.FrameEnded?
            then b[id := frames[id].(state := FrameEnded(Outcome(EndedAs(Cancelled), [], None)))] else b)
  {
  }

  // ----- answers, newest first -----------------------------------------------------

  /** The answered entries in the trimming query's order. */
  ghost predicate NewestFirst(s: Store, answers: seq<Identity>) {
    && (forall k :: 0 <= k < |answers| ==> Answered(s, answers[k]))
    && (forall i :: Answered(s, i) ==> i in answers)
    && (forall j, k :: 0 <= j < k < |answers| ==>
         Answered(s, answers[j]) && Answered(s, answers[k]) && Newer(s, answers[j], answers[k]))
  }

  lemma AnswersFaithful(s: Store)
    requires IndexMatchesJobs(s.jobs, s.index)
    ensures IndexFaithful(s)
  {
  }

  /** Pick the newest of several answers. */
  method NewestAnswer(s: Store, among: set<Identity>) returns (newest: Identity)
    requires IndexFaithful(s) && among != {} && forall i :: i in among ==> Answered(s, i)
    ensures newest in among
    ensures forall i :: i in among && i != newest ==> Answered(s, newest) && Answered(s, i) && Newer(s, newest, i)
  {
    newest :| newest in among;
    var rest := among - {newest};
    while rest != {}
      invariant newest in among && rest <= among && newest !in rest
      invariant forall i :: i in among && i !in rest && i != newest ==> Newer(s, newest, i)
      decreases |rest|
    {
      var i :| i in rest;
      assert s.index[i] != s.index[newest];
      if Newer(s, i, newest) {
        newest := i;
      }
      rest := rest - {i};
    }
  }

  method AnswersNewestFirst(s: Store) returns (answers: seq<Identity>)
    requires IndexFaithful(s)
    ensures NewestFirst(s, answers)
  {
    hide CacheEligible;
    answers := [];
    var todo := AnsweredSet(s);
    while todo != {}
      invariant todo <= AnsweredSet(s)
      invariant forall k :: 0 <= k < |answers| ==> Answered(s, answers[k]) && answers[k] !in todo
      invariant forall i :: Answered(s, i) ==> i in answers || i in todo
      invariant forall j, k :: 0 <= j < k < |answers| ==> Newer(s, answers[j], answers[k])
      invariant forall k, i :: 0 <= k < |answers| && i in todo ==> Newer(s, answers[k], i)
      decreases |todo|
    {
      var next := NewestAnswer(s, todo);
      todo := todo - {next};
      answers := answers + [next];
    }
  }

  lemma RankIsPosition(s: Store, answers: seq<Identity>, k: int)
    requires IndexFaithful(s) && NewestFirst(s, answers) && 0 <= k < |answers|
    ensures Distinct(answers)
    ensures NewerAnswers(s, answers[k]) == SetOf(answers[..k]) && |NewerAnswers(s, answers[k])| == k
  {
    hide CacheEligible;
    assert Distinct(answers);
    forall i | i in NewerAnswers(s, answers[k])
      ensures i in answers[..k]
    {
      var j :| 0 <= j < |answers| && answers[j] == i;
      assert j < k;
    }
    assert NewerAnswers(s, answers[k]) == SetOf(answers[..k]);
    hide NewerAnswers, NewestFirst;
    DistinctWithin(answers[..k], SetOf(answers[..k]));
  }

  lemma TrimmedByPosition(s: Store, answers: seq<Identity>, k: int)
    requires IndexFaithful(s) && NewestFirst(s, answers) && 0 <= k < |answers|
    ensures answers[k] in s.index && (answers[k] in TrimIndex(s).index <==> k < INDEX_CAPACITY)
  {
    hide CacheEligible, NewerAnswers;
    RankIsPosition(s, answers, k);
  }

  lemma UnansweredKept(s: Store, i: Identity)
    requires i in s.index && !Answered(s, i)
    ensures i in TrimIndex(s).index
  {
    hide CacheEligible, NewerAnswers;
  }

  lemma TrimKeepsValues(s: Store)
    ensures forall i :: i in TrimIndex(s).index ==> i in s.index && TrimIndex(s).index[i] == s.index[i]
  {
    hide CacheEligible, NewerAnswers;
  }

  /** The deleted tail: every answer after the first fifty, and nothing else. */
  function Beyond(answers: seq<Identity>): seq<Identity> {
    if |answers| > INDEX_CAPACITY then answers[INDEX_CAPACITY..] else []
  }

  lemma AnswersDistinct(s: Store, answers: seq<Identity>)
    requires IndexFaithful(s) && NewestFirst(s, answers)
    ensures Distinct(answers)
  {
    hide CacheEligible, NewerAnswers, NewestFirst, Distinct, IndexFaithful;
    if answers != [] {
      RankIsPosition(s, answers, 0);
    } else {
      assert Distinct(answers) by { NothingDistinct(); }
    }
  }

  lemma NothingDistinct()
    ensures Distinct<Identity>([])
  {
  }

  lemma AnsweredListed(s: Store, answers: seq<Identity>, i: Identity)
    requires NewestFirst(s, answers)
    ensures Answered(s, i) <==> i in answers
  {
    hide CacheEligible, Newer;
  }

  lemma BeyondIsListed(answers: seq<Identity>, i: Identity)
    requires i in Beyond(answers)
    ensures i in answers
  {
  }

  lemma TrimmedOne(s: Store, answers: seq<Identity>, i: Identity)
    requires IndexFaithful(s) && NewestFirst(s, answers) && i in s.index
    ensures i in TrimIndex(s).index <==> i !in Beyond(answers)
  {
    hide TrimIndex, NewestFirst, Answered, Beyond, IndexFaithful, Distinct;
    AnswersDistinct(s, answers);
    AnsweredListed(s, answers, i);
    if Answered(s, i) {
      var k :| 0 <= k < |answers| && answers[k] == i;
      TrimmedByPosition(s, answers, k);
      BeyondByPosition(answers, k);
    } else {
      UnansweredKept(s, i);
      if i in Beyond(answers) {
        BeyondIsListed(answers, i);
        assert false;
      }
    }
  }

  lemma TrimmedIsSuffix(s: Store, answers: seq<Identity>)
    requires IndexFaithful(s) && NewestFirst(s, answers)
    ensures TrimIndex(s).index == s.index - SetOf(Beyond(answers))
  {
    hide TrimIndex, NewestFirst, Beyond, IndexFaithful;
    TrimKeepsValues(s);
    forall i | i in s.index
      ensures i in TrimIndex(s).index <==> i !in Beyond(answers)
    {
      TrimmedOne(s, answers, i);
    }
  }

  lemma BeyondByPosition(answers: seq<Identity>, k: int)
    requires Distinct(answers) && 0 <= k < |answers|
    ensures answers[k] in Beyond(answers) <==> k >= INDEX_CAPACITY
  {
    var tail := Beyond(answers);
    if k >= INDEX_CAPACITY {
      assert tail[k - INDEX_CAPACITY] == answers[k];
    } else {
      assert forall j :: 0 <= j < |tail| ==> tail[j] == answers[INDEX_CAPACITY + j];
    }
  }

  // ----- the log -------------------------------------------------------------------

  lemma PositionMeansObserved(job: Job, id: PacketId)
    requires |job.evidence| == |job.observations|
    requires forall k :: 0 <= k < |job.evidence| ==> job.observations[k].id == job.evidence[k]
    ensures Position(job.observations, id) < |job.observations| <==> id in job.evidence
  {
    if id in job.evidence {
      var k :| 0 <= k < |job.evidence| && job.evidence[k] == id;
      assert job.observations[k].id == id;
    }
  }

  lemma JobLogsMatch(cfg: Config, s: Store, id: JobId)
    requires Inv(cfg, s) && id in s.jobs
    ensures EvidenceListed(s.jobs[id])
  {
    hide Inv, Owned, ChildEntry;
    LogOf(cfg, s, id);
  }

  // ----- checkpoint validation -----------------------------------------------------

  ghost predicate EvidenceListed(job: Job) {
    && |job.evidence| == |job.observations|
    && forall k :: 0 <= k < |job.evidence| ==> job.observations[k].id == job.evidence[k]
  }

  /** One frame in order: logged after the previous frame, faithful, and within the cap. */
  predicate FrameChecked(cfg: Config, job: Job, frame: Observation, previous: int) {
    var at := Position(job.observations, frame.id);
    && previous < at < |job.observations|
    && FaithfulFrame(cfg, job.observations[at], frame) && cfg.frameBytes(frame) <= CHECKPOINT_MAX_FRAME_BYTES
  }

  function Previous(job: Job, frames: seq<Observation>, i: int): int
    requires 0 <= i <= |frames|
  {
    if i == 0 then -1 else Position(job.observations, frames[i - 1].id)
  }

  ghost predicate CheckedSoFar(cfg: Config, job: Job, frames: seq<Observation>, i: int)
    requires 0 <= i <= |frames|
  {
    forall k :: 0 <= k < i ==> FrameChecked(cfg, job, frames[k], Previous(job, frames, k))
  }

  lemma CheckedNext(cfg: Config, job: Job, frames: seq<Observation>, k: int)
    requires 0 < k < |frames| && CheckedSoFar(cfg, job, frames, |frames|)
    ensures Position(job.observations, frames[k - 1].id) < Position(job.observations, frames[k].id)
  {
    hide FaithfulFrame;
    assert FrameChecked(cfg, job, frames[k], Previous(job, frames, k));
  }

  lemma CheckedAscends(cfg: Config, job: Job, frames: seq<Observation>, j: int, k: int)
    requires 0 <= j < k < |frames| && CheckedSoFar(cfg, job, frames, |frames|)
    ensures Position(job.observations, frames[j].id) < Position(job.observations, frames[k].id)
    decreases k
  {
    hide CheckedSoFar, Position;
    CheckedNext(cfg, job, frames, k);
    if j < k - 1 {
      CheckedAscends(cfg, job, frames, j, k - 1);
    }
  }

  /** The sequential check is the declarative acceptance condition. */
  lemma CheckedMeansAccepted(cfg: Config, job: Job, frames: seq<Observation>)
    requires EvidenceListed(job)
    ensures CheckpointAccepted(cfg, job, frames) <==>
      && |frames| <= CHECKPOINT_MAX_OBSERVATIONS && CheckedSoFar(cfg, job, frames, |frames|)
      && cfg.checkpointBytes(frames) <= CHECKPOINT_MAX_BYTES
  {
    hide FaithfulFrame;
    if CheckpointAccepted(cfg, job, frames) {
      forall k | 0 <= k < |frames|
        ensures FrameChecked(cfg, job, frames[k], Previous(job, frames, k))
      {
      }
    }
    if CheckedSoFar(cfg, job, frames, |frames|) {
      forall k | 0 <= k < |frames|
        ensures frames[k].id in job.evidence && FrameChecked(cfg, job, frames[k], Previous(job, frames, k))
      {
        PositionMeansObserved(job, frames[k].id);
      }
      forall j, k | 0 <= j < k < |frames|
        ensures Position(job.observations, frames[j].id) < Position(job.observations, frames[k].id)
      {
        CheckedAscends(cfg, job, frames, j, k);
      }
    }
  }

  // ----- listings ------------------------------------------------------------------

  /** The ids of a table, in no particular order. */
  method JobList(ids: set<JobId>) returns (rows: seq<JobId>)
    ensures Distinct(rows) && forall x :: x in rows <==> x in ids
  {
    rows := [];
    var todo := ids;
    while todo != {}
      invariant todo <= ids && Distinct(rows)
      invariant forall x :: x in rows <==> x in ids && x !in todo
      decreases |todo|
    {
      NonEmpty(todo);
      var x :| x in todo;
      todo := todo - {x};
      rows := rows + [x];
    }
  }

  method FirstInOrder(s: Store, among: set<JobId>) returns (first: JobId)
    requires among != {} && among <= s.jobs.Keys
    ensures first in among && forall x :: x in among && x != first ==> Before(s, first, x)
  {
    hide Automatic;
    NonEmpty(among);
    first :| first in among;
    var rest := among - {first};
    while rest != {}
      invariant first in among && rest <= among && first !in rest
      invariant forall x :: x in among && x !in rest && x != first ==> Before(s, first, x)
      decreases |rest|
    {
      NonEmpty(rest);
      var x :| x in rest;
      if Before(s, x, first) {
        first := x;
      }
      rest := rest - {x};
    }
  }

  /** SELECT ... ORDER BY automatic, updated, id: the order exists and a sort finds it. */
  method DispatchRows(s: Store) returns (rows: seq<JobId>)
    ensures DispatchOrder(s, rows)
  {
    hide Automatic, Before;
    rows := [];
    var todo := s.jobs.Keys;
    while todo != {}
      invariant todo <= s.jobs.Keys
      invariant forall k :: 0 <= k < |rows| ==> rows[k] in s.jobs && rows[k] !in todo
      invariant forall x :: x in s.jobs ==> x in rows || x in todo
      invariant forall j, k :: 0 <= j < k < |rows| ==> Before(s, rows[j], rows[k])
      invariant forall k, x :: 0 <= k < |rows| && x in todo ==> Before(s, rows[k], x)
      decreases |todo|
    {
      var first := FirstInOrder(s, todo);
      todo := todo - {first};
      rows := rows + [first];
    }
  }

  /** SELECT the live jobs whose deadline has passed. */
  method DueList(s: Store, now: Time) returns (rows: seq<(JobId, Job)>)
    ensures DueRows(s, rows, now)
  {
    hide Due;
    rows := [];
    var ids := JobList(s.jobs.Keys);
    for k := 0 to |ids|
      invariant forall i :: 0 <= i < |rows| ==>
        rows[i].0 in ids[..k] && rows[i].0 in s.jobs && rows[i].1 == s.jobs[rows[i].0] && Due(rows[i].1, now)
      invariant forall i, j :: 0 <= i < j < |rows| ==> rows[i].0 != rows[j].0
      invariant forall x :: x in ids[..k] && x in s.jobs && Due(s.jobs[x], now) ==> (x, s.jobs[x]) in rows
    {
      var id := ids[k];
      assert id in ids && id in s.jobs.Keys;
      assert ids[..k + 1] == ids[..k] + [id] && id !in ids[..k];
      if Due(s.jobs[id], now) {
        rows := rows + [(id, s.jobs[id])];
      }
    }
    assert ids[..|ids|] == ids;
  }

  /** SELECT the automatic roots of other work that are still live. */
  method StaleRows(s: Store, work: Identity) returns (rows: seq<JobId>)
    ensures forall x :: x in rows <==> StalePreparation(s, x, work)
  {
    hide StalePreparation;
    rows := [];
    var ids := JobList(s.preparations.Keys);
    for k := 0 to |ids|
      invariant forall x :: x in rows <==> x in ids[..k] && StalePreparation(s, x, work)
    {
      assert ids[..k + 1] == ids[..k] + [ids[k]];
      if StalePreparation(s, ids[k], work) {
        rows := rows + [ids[k]];
      }
    }
    assert ids[..|ids|] == ids;
    StaleIsPrepared(s, work);
  }

  lemma StaleIsPrepared(s: Store, work: Identity)
    ensures forall x :: StalePreparation(s, x, work) ==> x in s.preparations
  {
  }

  /** SELECT the waits that satisfy a condition; a parent registers generations 1, 2, ... */
  method WaitRows(s: Store, chosen: (JobId, Wait) -> bool) returns (rows: seq<(JobId, int)>)
    ensures forall w :: w in rows <==> HasWait(s, w.0, w.1) && chosen(w.0, WaitAt(s, w.0, w.1))
  {
    rows := [];
    var ids := JobList(s.waits.Keys);
    for k := 0 to |ids|
      invariant forall w :: w in rows <==> w.0 in ids[..k] && HasWait(s, w.0, w.1) && chosen(w.0, WaitAt(s, w.0, w.1))
    {
      assert ids[..k + 1] == ids[..k] + [ids[k]] && ids[k] in ids && ids[k] !in ids[..k];
      var p := ids[k];
      ghost var done := rows;
      for g := 0 to |s.waits[p]|
        invariant forall w :: w in rows <==>
          w in done || (w.0 == p && 1 <= w.1 <= g && HasWait(s, p, w.1) && chosen(p, WaitAt(s, p, w.1)))
      {
        if chosen(p, s.waits[p][g]) {
          rows := rows + [(p, g + 1)];
        }
      }
    }
    assert ids[..|ids|] == ids;
  }

  lemma CheckedOneMore(cfg: Config, job: Job, frames: seq<Observation>, i: int)
    requires 0 <= i < |frames|
    ensures CheckedSoFar(cfg, job, frames, i + 1) <==>
      CheckedSoFar(cfg, job, frames, i) && FrameChecked(cfg, job, frames[i], Previous(job, frames, i))
    ensures CheckedSoFar(cfg, job, frames, |frames|) ==> CheckedSoFar(cfg, job, frames, i + 1)
    ensures Previous(job, frames, i + 1) == Position(job.observations, frames[i].id)
  {
    hide FrameChecked, Position;
  }

  lemma CheckedNothing(cfg: Config, job: Job, frames: seq<Observation>)
    ensures CheckedSoFar(cfg, job, frames, 0) && Previous(job, frames, 0) == -1
  {
  }
}
