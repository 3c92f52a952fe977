/** How a tree ends, said of the rows themselves: by cancellation or by a deadline. */
module BrokerEndings {
  import opened Prelude
  import opened BrokerModel
  import opened BrokerSteps
  import opened BrokerInvariant
  import opened BrokerTree
  import opened BrokerTreeSteps
  import opened BrokerCalm
  import opened BrokerCalmSteps
  import opened BrokerRuns
  import opened BrokerSafety

  /** A live job below the one that ended: one cancelled attempt more, its log as it was. */
  ghost predicate FencedBelow(x: Job, y: Job, now: Time) {
    y == x.(status := Cancelled, attempt := x.attempt + 1, reason := Other("parent_terminal"), lease := 0.0,
      updated := now)
  }

  /** Every other job: ended if it was live below this one, and untouched otherwise. */
  ghost predicate JobsBelowEnded(s: Store, t: Store, id: JobId, now: Time) {
    && t.jobs.Keys == s.jobs.Keys
    && forall x :: x in s.jobs && x != id ==>
         if Below(s.edges, x, id) && !s.jobs[x].status.Terminal() then FencedBelow(s.jobs[x], t.jobs[x], now)
         else t.jobs[x] == s.jobs[x]
  }

  /** Every other frame likewise; the frame of the tree's own job ends with its outcome, unless
      it ended before or its deadline is over and the outcome is neither expiry nor
      cancellation. */
  ghost predicate FramesBelowEnded(s: Store, t: Store, id: JobId, outcome: Outcome, now: Time) {
    && t.frames.Keys == s.frames.Keys
    && forall x :: x in s.frames ==>
         t.frames[x] == s.frames[x].(state :=
           if s.frames[x].state.FrameEnded? then s.frames[x].state
           else if x == id then
             if s.frames[x].deadline <= now && outcome.ending != Expired && outcome.ending != EndedAs(Cancelled)
             then s.frames[x].state else FrameEnded(outcome)
           else if Below(s.edges, x, id) then FrameEnded(Outcome(EndedAs(Cancelled), [], None)) else s.frames[x].state)
  }

  ghost predicate TreeEnded(s: Store, t: Store, id: JobId, ended: Job, outcome: Outcome, now: Time) {
    && t == s.(jobs := t.jobs, frames := t.frames)
    && id in t.jobs && t.jobs[id] == ended
    && JobsBelowEnded(s, t, id, now) && FramesBelowEnded(s, t, id, outcome, now)
  }

  lemma EndTreeMeans(s: Store, id: JobId, ended: Job, outcome: Outcome, now: Time)
    requires TreeInv(s) && id in s.jobs && id in s.frames
    ensures TreeEnded(s, EndTree(s, id, ended, outcome, now), id, ended, outcome, now)
  {
    TreeDepth(s);
    NotBelowItself(s, id);
    EdgesAreJobs(s);
    LiveHaveFrames(s);
    EndTreeJobsMean(s, id, ended, outcome, now) by { hide TreeInv; }
    EndTreeFramesMean(s, id, ended, outcome, now) by { hide TreeInv; }
    EndTreeSetsRow(s, id, ended, outcome, now) by { hide TreeInv; }
    hide TreeInv, JobsBelowEnded, FramesBelowEnded, EndFrame, CancelJobs, CancelFrames, Descendants;
  }

  lemma LiveHaveFrames(s: Store)
    requires TreeInv(s)
    ensures s.frames.Keys <= s.jobs.Keys && forall x :: x in s.jobs && !s.jobs[x].status.Terminal() ==> x in s.frames
    ensures forall x :: x in s.edges ==> x in s.jobs
  {
  }

  lemma BelowIsDescendant(edges: map<JobId, Edge>, x: JobId, id: JobId)
    ensures Below(edges, x, id) <==> x in Descendants(edges, id)
  {
    if Below(edges, x, id) {
      var n: nat :| Under(edges, x, id, n);
    }
  }

  lemma EndTreeJobsMean(s: Store, id: JobId, ended: Job, outcome: Outcome, now: Time)
    requires id in s.jobs && id in s.frames && id !in Descendants(s.edges, id)
    requires forall x :: x in s.jobs && !s.jobs[x].status.Terminal() ==> x in s.frames
    ensures JobsBelowEnded(s, EndTree(s, id, ended, outcome, now), id, now)
  {
    EndTreeRows(s, id, ended, outcome, now);
    hide EndTree, Descendants, Below;
    var t := EndTree(s, id, ended, outcome, now);
    forall x | x in s.jobs && x != id
      ensures if Below(s.edges, x, id) && !s.jobs[x].status.Terminal() then FencedBelow(s.jobs[x], t.jobs[x], now)
        else t.jobs[x] == s.jobs[x]
    {
      BelowIsDescendant(s.edges, x, id);
    }
  }

  lemma EndTreeFramesMean(s: Store, id: JobId, ended: Job, outcome: Outcome, now: Time)
    requires id in s.jobs && id in s.frames && id !in Descendants(s.edges, id) && s.frames.Keys <= s.jobs.Keys
    ensures FramesBelowEnded(s, EndTree(s, id, ended, outcome, now), id, outcome, now)
  {
    hide EndTree, Descendants, Below, EndFrame, CancelFrames;
    EndTreeFrameTable(s, id, ended, outcome, now);
    forall x | x in s.frames
      ensures Below(s.edges, x, id) <==> x in Descendants(s.edges, id)
    {
      BelowIsDescendant(s.edges, x, id);
    }
    FrameTableRows(s.frames, s.jobs.Keys, Descendants(s.edges, id), id, outcome, now);
  }

  lemma FrameTableRows(frames: map<JobId, Frame>, jobs: set<JobId>, doomed: set<JobId>, id: JobId, outcome: Outcome,
                       now: Time)
    requires id in frames && id !in doomed && frames.Keys <= jobs
    ensures var t := EndFrame(CancelFrames(frames, jobs, doomed), id, outcome, now);
      && t.Keys == frames.Keys
      && forall x :: x in frames ==>
           t[x] == frames[x].(state :=
             if frames[x].state.FrameEnded? then frames[x].state
             else if x == id then
               if frames[x].deadline <= now && outcome.ending != Expired && outcome.ending != EndedAs(Cancelled)
               then frames[x].state else FrameEnded(outcome)
             else if x in doomed then FrameEnded(Outcome(EndedAs(Cancelled), [], None)) else frames[x].state)
  {
  }

  lemma EndTreeFrameTable(s: Store, id: JobId, ended: Job, outcome: Outcome, now: Time)
    requires id in s.jobs && id in s.frames
    ensures EndTree(s, id, ended, outcome, now).frames ==
      EndFrame(CancelFrames(s.frames, s.jobs.Keys, Descendants(s.edges, id)), id, outcome, now)
  {
    hide EndFrame, CancelFrames, CancelJobs, Descendants;
    assert s.jobs[id := ended].Keys == s.jobs.Keys;
  }

  // ----- trimming the inquiry index ------------------------------------------------

  /** An answer worth serving again: a success whose text, or one of whose findings together
      with its evidence, says something. */
  ghost predicate Serves(job: Job) {
    && job.status in {Completed, Partial}
    && (!Wordless(job.answer) || exists f :: f in job.findings && !Wordless(f.text) && f.evidence != [])
  }

  /** The indexed answers that are more recent, ties going to the larger job id. */
  ghost function Ahead(s: Store, i: Identity): set<Identity>
    requires i in s.index && s.index[i] in s.jobs
  {
    var x := s.index[i];
    set k | k in s.index && s.index[k] in s.jobs && Serves(s.jobs[s.index[k]])
            && (s.jobs[s.index[k]].updated > s.jobs[x].updated
                || (s.jobs[s.index[k]].updated == s.jobs[x].updated && s.index[k] > x))
  }

  ghost predicate IndexTrimmed(s: Store, t: Store) {
    && t == s.(index := t.index) && t.index.Keys <= s.index.Keys
    && forall i :: i in s.index ==>
         && (i in t.index <==> (s.index[i] in s.jobs && Serves(s.jobs[s.index[i]]) ==> |Ahead(s, i)| < 50))
         && (i in t.index ==> t.index[i] == s.index[i])
  }

  lemma TrimMeans(s: Store)
    ensures IndexTrimmed(s, TrimIndex(s))
  {
    BlankIsWordless();
    hide Blank, Wordless;
    forall i | i in s.index && Answered(s, i)
      ensures Ahead(s, i) == NewerAnswers(s, i)
    {
    }
    forall i | i in s.index
      ensures Answered(s, i) <==> s.index[i] in s.jobs && Serves(s.jobs[s.index[i]])
    {
    }
    hide Serves, Answered, Ahead, NewerAnswers;
  }

  /** A tree ended, and then the index was trimmed. */
  ghost predicate EndedAndTrimmed(s: Store, t: Store, id: JobId, ended: Job, outcome: Outcome, now: Time) {
    TreeEnded(s, t.(index := s.index), id, ended, outcome, now) && IndexTrimmed(t.(index := s.index), t)
  }

  lemma EndThenTrim(s: Store, id: JobId, ended: Job, outcome: Outcome, now: Time)
    requires TreeInv(s) && id in s.jobs && id in s.frames
    ensures EndedAndTrimmed(s, TrimIndex(EndTree(s, id, ended, outcome, now)), id, ended, outcome, now)
  {
    hide TreeInv, TrimIndex, IndexTrimmed, JobsBelowEnded, FramesBelowEnded;
    var m := EndTree(s, id, ended, outcome, now);
    EndTreeMeans(s, id, ended, outcome, now);
    TrimMeans(m);
    hide EndTree;
    assert m.index == s.index;
    assert TrimIndex(m) == m.(index := TrimIndex(m).index) by { TrimOnlyIndex(m); }
    assert TrimIndex(m).(index := s.index) == m;
  }

  lemma TrimOnlyIndex(s: Store)
    ensures TrimIndex(s) == s.(index := TrimIndex(s).index)
  {
  }

  // ----- cancellation --------------------------------------------------------------

  ghost function Withdrawn(x: Job, reason: Reason, now: Time): Job {
    x.(status := Cancelled, attempt := x.attempt + 1, reason := reason, lease := 0.0, updated := now)
  }

  /** A cancellation is accepted exactly for a live job of this scope that is neither a child
      nor a preparation; it ends the job and everything below it. */
  lemma CancellationMeans(s: Store, id: JobId, scope: Scope, now: Time)
    requires TreeInv(s)
    ensures var (t, accepted) := Cancel(s, id, scope, now);
      && (accepted <==> id in s.jobs && !s.jobs[id].status.Terminal() && s.jobs[id].scope == scope
                        && id !in s.edges && id !in s.preparations)
      && (accepted ==> EndedAndTrimmed(s, t, id, Withdrawn(s.jobs[id], s.jobs[id].reason, now),
                                       Outcome(EndedAs(Cancelled), [], None), now))
      && (!accepted ==> t == s)
  {
    LiveHaveFrames(s);
    hide TreeInv, EndTree, TrimIndex, EndedAndTrimmed;
    if Cancel(s, id, scope, now).1 {
      EndThenTrim(s, id, CancelledJob(s.jobs[id], s.jobs[id].reason, now), Outcome(EndedAs(Cancelled), [], None), now);
    }
  }

  /** And for a preparation, exactly for a live one of this scope. */
  lemma PreparationCancellationMeans(s: Store, id: JobId, scope: Scope, now: Time)
    requires TreeInv(s)
    ensures var (t, accepted) := CancelPreparation(s, id, scope, now);
      && (accepted <==>
           id in s.preparations && id in s.jobs && !s.jobs[id].status.Terminal() && s.jobs[id].scope == scope)
      && (accepted ==> TreeEnded(s, t, id, Withdrawn(s.jobs[id], Other("operator_cancelled"), now),
                                 Outcome(EndedAs(Cancelled), [], None), now))
      && (!accepted ==> t == s)
  {
    LiveHaveFrames(s);
    hide TreeInv, EndTree, TreeEnded;
    if CancelPreparation(s, id, scope, now).1 {
      EndTreeMeans(s, id, CancelledJob(s.jobs[id], Other("operator_cancelled"), now),
        Outcome(EndedAs(Cancelled), [], None), now);
    }
  }

  // ----- deadlines -----------------------------------------------------------------

  ghost predicate PastDeadline(x: Job, now: Time) {
    !x.status.Terminal() && x.deadline.Some? && now >= x.deadline.value
  }

  /** A due job's record: one attempt more, partial exactly if it has findings or evidence. */
  ghost function TimedOut(x: Job, now: Time): Job {
    x.(status := if x.findings == [] && x.evidence == [] then Failed else Partial, attempt := x.attempt + 1,
       reason := DeadlineExhausted, lease := 0.0, updated := now)
  }

  /** A job that is in none of the rows is fenced if it is live below one of them, and
      otherwise as it was. */
  ghost predicate RestAfterExpiry(s: Store, t: Store, rows: seq<(JobId, Job)>, x: JobId, now: Time) {
    && x in s.jobs && x in t.jobs
    && if !s.jobs[x].status.Terminal() && exists k :: 0 <= k < |rows| && Below(s.edges, x, rows[k].0)
       then FencedBelow(s.jobs[x], t.jobs[x], now) else t.jobs[x] == s.jobs[x]
  }

  lemma ExpireOneMeans(s: Store, id: JobId, fetched: Job, now: Time)
    requires TreeInv(s) && id in s.jobs && id in s.frames
    ensures var t := ExpireOne(s, id, fetched, now);
      t.edges == s.edges && t.frames.Keys == s.frames.Keys && JobsBelowEnded(s, t, id, now)
  {
    hide TreeInv, EndTree, TrimIndex;
    EndTreeMeans(s, id, ExpiredJob(fetched, now), Outcome(Expired, fetched.evidence, None), now);
    TrimOnlyIndex(EndTree(s, id, ExpiredJob(fetched, now), Outcome(Expired, fetched.evidence, None), now));
    hide FencedBelow, Below;
  }

  lemma {:induction false} ExpiryLeavesRest(s: Store, rows: seq<(JobId, Job)>, now: Time, x: JobId)
    requires TreeInv(s) && x in s.jobs && OtherRows(s.frames.Keys, rows, x)
    ensures RestAfterExpiry(s, ExpireAll(s, rows, now), rows, x, now)
    decreases |rows|
  {
    if rows != [] {
      var s1 := ExpireOne(s, rows[0].0, rows[0].1, now);
      OtherTail(s.frames.Keys, rows, x);
      EdgesAreJobs(s);
      hide TreeInv, ExpireOne, RestAfterExpiry, OtherRows;
      ExpireOneMeans(s, rows[0].0, rows[0].1, now);
      ExpireOneKeepsTree(s, rows[0].0, rows[0].1, now);
      ExpiryLeavesRest(s1, rows[1..], now, x);
      RestGoesOn(s, s1, ExpireAll(s1, rows[1..], now), rows, x, now);
    }
  }

  lemma RestGoesOn(s: Store, s1: Store, t: Store, rows: seq<(JobId, Job)>, x: JobId, now: Time)
    requires rows != [] && x in s.jobs && x != rows[0].0 && JobsBelowEnded(s, s1, rows[0].0, now) && s1.edges == s.edges
    requires RestAfterExpiry(s1, t, rows[1..], x, now)
    ensures RestAfterExpiry(s, t, rows, x, now)
  {
    hide Below;
    assert forall k :: 0 <= k < |rows[1..]| ==> rows[1..][k] == rows[k + 1];
    if k :| 0 <= k < |rows| && Below(s.edges, x, rows[k].0) {
      assert k == 0 || Below(s1.edges, x, rows[1..][k - 1].0);
    }
    if k :| 0 <= k < |rows[1..]| && Below(s1.edges, x, rows[1..][k].0) {
      assert Below(s.edges, x, rows[k + 1].0);
    }
  }

  ghost predicate DueAbove(s: Store, x: JobId, now: Time) {
    exists a :: a in s.jobs && PastDeadline(s.jobs[a], now) && Below(s.edges, x, a)
  }

  lemma DueAboveIs(s: Store, rows: seq<(JobId, Job)>, now: Time, x: JobId)
    requires DueRows(s, rows, now)
    ensures DueAbove(s, x, now) <==> exists k :: 0 <= k < |rows| && Below(s.edges, x, rows[k].0)
  {
    hide Below;
    if a :| a in s.jobs && PastDeadline(s.jobs[a], now) && Below(s.edges, x, a) {
      assert (a, s.jobs[a]) in rows;
      var k :| 0 <= k < |rows| && rows[k] == (a, s.jobs[a]);
      assert Below(s.edges, x, rows[k].0);
    }
    if k :| 0 <= k < |rows| && Below(s.edges, x, rows[k].0) {
      assert Due(rows[k].1, now) && PastDeadline(s.jobs[rows[k].0], now);
    }
  }

  /** One expiry: every due job times out, every other live job below a due one is fenced, and
      all other records are as they were. */
  lemma ExpiryMeans(s: Store, rows: seq<(JobId, Job)>, now: Time, x: JobId)
    requires TreeInv(s) && DueRows(s, rows, now) && x in s.jobs
    ensures var t := ExpireAll(s, rows, now);
      && x in t.jobs
      && (if PastDeadline(s.jobs[x], now) then t.jobs[x] == TimedOut(s.jobs[x], now)
          else if !s.jobs[x].status.Terminal() && DueAbove(s, x, now) then FencedBelow(s.jobs[x], t.jobs[x], now)
          else t.jobs[x] == s.jobs[x])
  {
    if PastDeadline(s.jobs[x], now) {
      DueTimesOut(s, rows, now, x);
      hide *;
    } else {
      DueFramesKnown(s, rows, now) by { hide TreeInv, DueRows; }
      DueAboveIs(s, rows, now, x);
      NotDueNotListed(s, rows, now, x);
      hide TreeInv, ExpireAll, Below, FencedBelow, DueRows, DueAbove, PastDeadline;
      ExpiryLeavesRest(s, rows, now, x);
    }
  }

  lemma DueTimesOut(s: Store, rows: seq<(JobId, Job)>, now: Time, x: JobId)
    requires TreeInv(s) && DueRows(s, rows, now) && x in s.jobs && PastDeadline(s.jobs[x], now)
    ensures x in ExpireAll(s, rows, now).jobs && ExpireAll(s, rows, now).jobs[x] == TimedOut(s.jobs[x], now)
  {
    hide TreeInv, ExpireAll, DueRows;
    DueJobExpires(s, rows, now, x);
  }

  lemma NotDueNotListed(s: Store, rows: seq<(JobId, Job)>, now: Time, x: JobId)
    requires DueRows(s, rows, now) && x in s.jobs && !PastDeadline(s.jobs[x], now)
    ensures forall k :: 0 <= k < |rows| ==> rows[k].0 != x
  {
  }

  /** A frame that ended, or that no row can end, stays as it is. */
  ghost predicate FrameSafe(s: Store, rows: seq<(JobId, Job)>, x: JobId) {
    && x in s.frames
    && (s.frames[x].state.FrameEnded?
        || forall k :: 0 <= k < |rows| ==> rows[k].0 != x && !Below(s.edges, x, rows[k].0))
  }

  lemma ExpireOneFrames(s: Store, id: JobId, fetched: Job, now: Time)
    requires TreeInv(s) && id in s.jobs && id in s.frames
    ensures var t := ExpireOne(s, id, fetched, now);
      t.edges == s.edges && FramesBelowEnded(s, t, id, Outcome(Expired, fetched.evidence, None), now)
  {
    hide TreeInv, EndTree, TrimIndex;
    EndTreeMeans(s, id, ExpiredJob(fetched, now), Outcome(Expired, fetched.evidence, None), now);
    TrimOnlyIndex(EndTree(s, id, ExpiredJob(fetched, now), Outcome(Expired, fetched.evidence, None), now));
    hide Below;
  }

  ghost predicate RowsHaveFrames(s: Store, rows: seq<(JobId, Job)>) {
    forall k :: 0 <= k < |rows| ==> rows[k].0 in s.frames && rows[k].0 in s.jobs
  }

  lemma RowsHead(s: Store, rows: seq<(JobId, Job)>, now: Time)
    requires TreeInv(s) && rows != [] && RowsHaveFrames(s, rows)
    ensures var s1 := ExpireOne(s, rows[0].0, rows[0].1, now);
      && rows[0].0 in s.frames && rows[0].0 in s.jobs && TreeInv(s1) && RowsHaveFrames(s1, rows[1..])
  {
    hide TreeInv, ExpireOne;
    ExpireOneKeepsTree(s, rows[0].0, rows[0].1, now);
    ExpireOneMeans(s, rows[0].0, rows[0].1, now);
    hide JobsBelowEnded;
    assert ExpireOne(s, rows[0].0, rows[0].1, now).jobs.Keys == s.jobs.Keys by {
      assert JobsBelowEnded(s, ExpireOne(s, rows[0].0, rows[0].1, now), rows[0].0, now);
      KeysOf(s, ExpireOne(s, rows[0].0, rows[0].1, now), rows[0].0, now);
    }
  }

  lemma KeysOf(s: Store, t: Store, id: JobId, now: Time)
    requires JobsBelowEnded(s, t, id, now)
    ensures t.jobs.Keys == s.jobs.Keys
  {
    hide Below, FencedBelow;
  }

  lemma SafeFrameStep(s: Store, t: Store, rows: seq<(JobId, Job)>, x: JobId, now: Time)
    requires rows != [] && FrameSafe(s, rows, x) && t.edges == s.edges
    requires FramesBelowEnded(s, t, rows[0].0, Outcome(Expired, rows[0].1.evidence, None), now)
    ensures x in s.frames && x in t.frames && t.frames[x] == s.frames[x] && FrameSafe(t, rows[1..], x)
  {
    hide Below;
    assert forall k :: 0 <= k < |rows[1..]| ==> rows[1..][k] == rows[k + 1];
  }

  /** The frame that row `k`, with this evidence, and no other row will end. */
  ghost predicate FrameEndsAt(s: Store, rows: seq<(JobId, Job)>, x: JobId, k: int, evidence: seq<PacketId>) {
    && 0 <= k < |rows| && rows[k].0 == x && rows[k].1.evidence == evidence
    && x in s.frames && !s.frames[x].state.FrameEnded?
    && (forall j :: 0 <= j < |rows| && j != k ==> rows[j].0 != x)
    && (forall j :: 0 <= j < |rows| ==> !Below(s.edges, x, rows[j].0))
  }

  lemma EndingFrameStep(s: Store, t: Store, rows: seq<(JobId, Job)>, x: JobId, k: int, evidence: seq<PacketId>,
                        now: Time)
    requires FrameEndsAt(s, rows, x, k, evidence) && t.edges == s.edges
    requires FramesBelowEnded(s, t, rows[0].0, Outcome(Expired, rows[0].1.evidence, None), now)
    ensures k == 0 ==> FrameSafe(t, rows[1..], x) && t.frames[x].state == FrameEnded(Outcome(Expired, evidence, None))
    ensures k > 0 ==> FrameEndsAt(t, rows[1..], x, k - 1, evidence)
  {
    hide Below;
    assert forall j :: 0 <= j < |rows[1..]| ==> rows[1..][j] == rows[j + 1];
  }

  lemma {:induction false} ExpiryKeepsFrame(s: Store, rows: seq<(JobId, Job)>, now: Time, x: JobId)
    requires TreeInv(s) && RowsHaveFrames(s, rows) && FrameSafe(s, rows, x)
    ensures x in ExpireAll(s, rows, now).frames && ExpireAll(s, rows, now).frames[x] == s.frames[x]
    decreases |rows|
  {
    if rows != [] {
      var s1 := ExpireOne(s, rows[0].0, rows[0].1, now);
      ExpireAllStep(s, rows, now);
      hide TreeInv, ExpireOne, ExpireAll, RowsHaveFrames, FrameSafe, FramesBelowEnded;
      RowsHead(s, rows, now);
      ExpireOneFrames(s, rows[0].0, rows[0].1, now);
      SafeFrameStep(s, s1, rows, x, now);
      ExpiryKeepsFrame(s1, rows[1..], now, x);
    }
  }

  /** One row further: what is still to come, and either the frame's end is next or it is over. */
  lemma EndsAtStep(s: Store, rows: seq<(JobId, Job)>, now: Time, x: JobId, k: int, evidence: seq<PacketId>)
    requires TreeInv(s) && RowsHaveFrames(s, rows) && FrameEndsAt(s, rows, x, k, evidence)
    ensures 0 <= k < |rows|
    ensures var s1 := ExpireOne(s, rows[0].0, rows[0].1, now);
      && ExpireAll(s, rows, now) == ExpireAll(s1, rows[1..], now)
      && TreeInv(s1) && RowsHaveFrames(s1, rows[1..])
      && (k == 0 ==> FrameSafe(s1, rows[1..], x) && s1.frames[x].state == FrameEnded(Outcome(Expired, evidence, None)))
      && (k > 0 ==> FrameEndsAt(s1, rows[1..], x, k - 1, evidence))
  {
    EndsAtListed(s, rows, x, k, evidence);
    var s1 := ExpireOne(s, rows[0].0, rows[0].1, now);
    ExpireAllStep(s, rows, now);
    hide TreeInv, ExpireOne, ExpireAll, RowsHaveFrames, FrameEndsAt, FramesBelowEnded, Below;
    RowsHead(s, rows, now);
    ExpireOneFrames(s, rows[0].0, rows[0].1, now);
    EndingFrameStep(s, s1, rows, x, k, evidence, now);
  }

  /** A due job with no due job above it ends its frame as expired, with its evidence. */
  lemma {:induction false} ExpiryEndsFrame(s: Store, rows: seq<(JobId, Job)>, now: Time, x: JobId, k: int,
                                           evidence: seq<PacketId>)
    requires TreeInv(s) && RowsHaveFrames(s, rows) && FrameEndsAt(s, rows, x, k, evidence)
    ensures x in ExpireAll(s, rows, now).frames
    ensures ExpireAll(s, rows, now).frames[x].state == FrameEnded(Outcome(Expired, evidence, None))
    decreases |rows|
  {
    hide *;
    EndsAtStep(s, rows, now, x, k, evidence);
    var s1 := ExpireOne(s, rows[0].0, rows[0].1, now);
    if k == 0 {
      ExpiryKeepsFrame(s1, rows[1..], now, x);
    } else {
      ExpiryEndsFrame(s1, rows[1..], now, x, k - 1, evidence);
    }
  }

  lemma ExpireAllStep(s: Store, rows: seq<(JobId, Job)>, now: Time)
    requires rows != []
    ensures ExpireAll(s, rows, now) == ExpireAll(ExpireOne(s, rows[0].0, rows[0].1, now), rows[1..], now)
  {
    hide ExpireOne;
  }

  lemma EndsAtListed(s: Store, rows: seq<(JobId, Job)>, x: JobId, k: int, evidence: seq<PacketId>)
    requires FrameEndsAt(s, rows, x, k, evidence)
    ensures 0 <= k < |rows|
  {
    hide Below;
  }

  lemma ExpiryMeansForFrames(s: Store, rows: seq<(JobId, Job)>, now: Time, x: JobId)
    requires TreeInv(s) && DueRows(s, rows, now) && x in s.frames && !s.frames[x].state.FrameEnded?
    requires !DueAbove(s, x, now)
    ensures var t := ExpireAll(s, rows, now);
      && x in t.frames && x in s.jobs
      && t.frames[x].state == if PastDeadline(s.jobs[x], now)
        then FrameEnded(Outcome(Expired, s.jobs[x].evidence, None))
                              else s.frames[x].state
  {
    DueFramesKnown(s, rows, now) by { hide TreeInv, DueRows; }
    LiveHaveFrames(s);
    DueAboveIs(s, rows, now, x);
    hide TreeInv, ExpireAll, Below, DueAbove;
    assert RowsHaveFrames(s, rows);
    if PastDeadline(s.jobs[x], now) {
      assert (x, s.jobs[x]) in rows;
      var k :| 0 <= k < |rows| && rows[k] == (x, s.jobs[x]);
      assert FrameEndsAt(s, rows, x, k, s.jobs[x].evidence);
      ExpiryEndsFrame(s, rows, now, x, k, s.jobs[x].evidence);
    } else {
      NotDueNotListed(s, rows, now, x);
      assert FrameSafe(s, rows, x);
      ExpiryKeepsFrame(s, rows, now, x);
    }
  }

  /** The stores between the rows of one expiry: each row ends its own tree with the record that
      was fetched before the first. */
  ghost predicate ExpiredBy(stores: seq<Store>, rows: seq<(JobId, Job)>, now: Time) {
    && |stores| == |rows| + 1
    && forall k :: 0 <= k < |rows| ==>
         EndedAndTrimmed(stores[k], stores[k + 1], rows[k].0, TimedOut(rows[k].1, now),
                         Outcome(Expired, rows[k].1.evidence, None), now)
  }

  lemma RowExpires(s: Store, rows: seq<(JobId, Job)>, now: Time)
    requires TreeInv(s) && RowsHaveFrames(s, rows) && rows != []
    ensures var s1 := ExpireOne(s, rows[0].0, rows[0].1, now);
      && TreeInv(s1) && RowsHaveFrames(s1, rows[1..])
      && EndedAndTrimmed(s, s1, rows[0].0, TimedOut(rows[0].1, now), Outcome(Expired, rows[0].1.evidence, None), now)
  {
    hide TreeInv, EndTree, TrimIndex, RowsHaveFrames, EndedAndTrimmed;
    RowsHead(s, rows, now);
    EndThenTrim(s, rows[0].0, ExpiredJob(rows[0].1, now), Outcome(Expired, rows[0].1.evidence, None), now);
    assert ExpiredJob(rows[0].1, now) == TimedOut(rows[0].1, now);
    hide ExpiredJob, TimedOut;
  }

  lemma {:induction false} ExpiryTraced(s: Store, rows: seq<(JobId, Job)>, now: Time) returns (stores: seq<Store>)
    requires TreeInv(s) && RowsHaveFrames(s, rows)
    ensures ExpiredBy(stores, rows, now) && stores[0] == s && stores[|rows|] == ExpireAll(s, rows, now)
    decreases |rows|
  {
    hide TreeInv, RowsHaveFrames, EndedAndTrimmed, ExpireOne, TimedOut;
    if rows == [] {
      stores := [s];
    } else {
      RowExpires(s, rows, now);
      var rest := ExpiryTraced(ExpireOne(s, rows[0].0, rows[0].1, now), rows[1..], now);
      stores := [s] + rest;
      forall k | 0 <= k < |rows|
        ensures EndedAndTrimmed(stores[k], stores[k + 1], rows[k].0, TimedOut(rows[k].1, now),
                                Outcome(Expired, rows[k].1.evidence, None), now)
      {
        if k > 0 {
          assert rows[k] == rows[1..][k - 1];
        }
      }
    }
  }
}
