/** Activating prepared Todo authorities: staging, archiving, installing and marking each
    one, then publishing session tokens, with a stop possible after any file-system step. */
module Activation {
  import opened Prelude

  type Identity = string   // project and authority id, as project.json records them
  type Stamp = string

  /** A native state tree. Its digest is injective here: equal digests are equal trees. */
  datatype Tree = Tree(identity: Option<Identity>, content: string)

  /** One prepared authority; `isNew` is the one initialized without a legacy export. */
  datatype Authority = Authority(identity: Identity, candidate: Tree, isNew: bool)

  /** The paths of one authority: the native tree, archives and stages by stamp (a stage is
      None while its copy is incomplete), its marker, and the legacy files' write bits. */
  datatype Place = Place(
    target: Option<Tree>, archives: map<Stamp, Tree>, stages: map<Stamp, Option<Tree>>,
    marked: bool, legacyWritable: bool)

  datatype Session = Session(authority: int, token: string)
  datatype Tokens = Tokens(sessions: seq<Session>, attempts: seq<string>, children: seq<string>)

  datatype Refusal =
    | CandidateDiffers | UnsafeMarker | UnknownProject | NothingPending | DiffersFromCandidate | FreshTargetAppeared
    | WritersRunning | ArchiveExists | StageExists

  datatype Outcome = Refused(why: Refusal) | DryRun | AlreadyActive | Activated | Stopped

  // ----- the token document --------------------------------------------------------

  function SessionsOf(rows: seq<Session>, active: set<int>): (r: seq<Session>)
    ensures forall x :: x in r <==> x in rows && x.authority in active
  {
    if rows == [] then []
    else
      var earlier, last := SessionsOf(rows[..|rows| - 1], active), rows[|rows| - 1];
      if last.authority in active then earlier + [last] else earlier
  }

  /** The prepared sessions of the active authorities, and the runtime records kept. */
  function Document(prepared: seq<Session>, active: set<int>, previous: Option<Tokens>): Tokens {
    Tokens(SessionsOf(prepared, active),
           if previous.Some? then previous.value.attempts else [],
           if previous.Some? then previous.value.children else [])
  }

  /** The published sessions are the prepared rows of marked authorities, each row once and in
      the prepared order, and the runtime records are those of the store that was there. */
  ghost predicate Publishes(prepared: seq<Session>, places: seq<Place>, previous: Option<Tokens>, now: Option<Tokens>) {
    && now.Some? && (exists at :: RowsAt(prepared, places, now.value.sessions, at))
    && now.value.attempts == (if previous.Some? then previous.value.attempts else [])
    && now.value.children == (if previous.Some? then previous.value.children else [])
  }

  ghost predicate RowsAt(prepared: seq<Session>, places: seq<Place>, sessions: seq<Session>, at: seq<int>) {
    && |at| == |sessions| && (forall j, k :: 0 <= j < k < |at| ==> at[j] < at[k])
    && (forall k :: 0 <= k < |at| ==> 0 <= at[k] < |prepared| && sessions[k] == prepared[at[k]])
    && forall j :: 0 <= j < |prepared| ==>
         (j in at <==> 0 <= prepared[j].authority < |places| && places[prepared[j].authority].marked)
  }

  lemma {:induction false} SessionRows(rows: seq<Session>, places: seq<Place>) returns (at: seq<int>)
    ensures RowsAt(rows, places, SessionsOf(rows, Marked(places)), at)
    decreases |rows|
  {
    if rows == [] {
      at := [];
    } else {
      var n := |rows| - 1;
      var earlier := SessionRows(rows[..n], places);
      at := if rows[n].authority in Marked(places) then earlier + [n] else earlier;
      var was, now := SessionsOf(rows[..n], Marked(places)), SessionsOf(rows, Marked(places));
      hide SessionsOf;
      RowAdded(rows, places, was, now, earlier, at);
    }
  }

  lemma RowAdded(rows: seq<Session>, places: seq<Place>, was: seq<Session>, now: seq<Session>, earlier: seq<int>,
                 at: seq<int>)
    requires rows != [] && RowsAt(rows[..|rows| - 1], places, was, earlier)
    requires var n := |rows| - 1;
      if rows[n].authority in Marked(places) then now == was + [rows[n]] && at == earlier + [n]
      else now == was && at == earlier
    ensures RowsAt(rows, places, now, at)
  {
    var n := |rows| - 1;
    forall j | 0 <= j < |rows|
      ensures j in at <==> 0 <= rows[j].authority < |places| && places[rows[j].authority].marked
    {
      if j < n {
        assert rows[..n][j] == rows[j];
        assert j in at <==> j in earlier;
      } else {
        assert forall k :: 0 <= k < |earlier| ==> earlier[k] < n;
      }
    }
  }

  lemma DocumentPublishes(prepared: seq<Session>, places: seq<Place>, previous: Option<Tokens>)
    ensures Publishes(prepared, places, previous, Some(Document(prepared, Marked(places), previous)))
  {
    var at := SessionRows(prepared, places);
    hide SessionsOf, Marked, RowsAt;
  }

  /** Publishing more authorities later forgets nothing and repeats nothing: only the last
      set of active authorities shows. */
  lemma DocumentAgain(prepared: seq<Session>, first: set<int>, later: set<int>, previous: Option<Tokens>)
    ensures Document(prepared, later, Some(Document(prepared, first, previous))) == Document(prepared, later, previous)
  {
  }

  // ----- what the preflight decides ------------------------------------------------

  function Marked(places: seq<Place>): set<int> {
    set i | 0 <= i < |places| && places[i].marked
  }

  /** The candidate's own metadata names the prepared authority. */
  predicate Prepared(a: Authority) {
    a.candidate.identity == Some(a.identity)
  }

  predicate MarkerSound(a: Authority, p: Place) {
    p.marked ==> p.target.Some? && p.target.value.identity == Some(a.identity)
  }

  /** Why an unmarked authority cannot be installed over what is there. */
  function Conflict(a: Authority, p: Place): (r: Option<Refusal>)
    ensures r.Some? ==> r.value.DiffersFromCandidate? || r.value.FreshTargetAppeared?
  {
    if p.target.None? then None
    else if p.target.value.identity == Some(a.identity)
    then if p.target.value != a.candidate then Some(DiffersFromCandidate) else None
    else if a.isNew then Some(FreshTargetAppeared) else None
  }

  /** What must not be overwritten: an unmarked tree of the same identity that is not the
      candidate, or any foreign tree where a new authority was to go. */
  ghost predicate MustStay(a: Authority, p: Place) {
    && !p.marked && p.target.Some?
    && if p.target.value.identity == Some(a.identity) then p.target.value != a.candidate else a.isNew
  }

  lemma MarkedMayStay(a: Authority, p: Place)
    ensures p.marked ==> !MustStay(a, p)
  {
  }

  lemma ConflictIs(a: Authority, p: Place)
    requires !p.marked
    ensures MustStay(a, p) <==> Conflict(a, p).Some?
    ensures MustStay(a, p) ==> Conflict(a, p) == Some(
      if p.target.value.identity == Some(a.identity) then DiffersFromCandidate else FreshTargetAppeared)
  {
  }

  function Everything(n: nat): (r: set<int>)
    ensures forall i :: i in r <==> 0 <= i < n
  {
    if n == 0 then {} else Everything(n - 1) + {n - 1}
  }

  /** The explicitly requested authorities, or by default all that are not active. */
  function Selected(requested: set<int>, n: nat, active: set<int>): set<int> {
    if requested != {} then requested else Everything(n) - active
  }

  /** The same, one authority at a time: requested, or, by default, not marked. */
  ghost predicate Chosen(requested: set<int>, places: seq<Place>, i: int) {
    0 <= i < |places| && if requested == {} then !places[i].marked else i in requested
  }

  lemma ChosenIs(requested: set<int>, places: seq<Place>)
    requires forall i :: i in requested ==> 0 <= i < |places|
    ensures forall i :: i in Selected(requested, |places|, Marked(places)) <==> Chosen(requested, places, i)
  {
  }

  lemma ChosenInRange(requested: set<int>, places: seq<Place>)
    ensures forall i :: Chosen(requested, places, i) ==> 0 <= i < |places|
  {
  }

  ghost predicate Within(requested: set<int>, n: nat) {
    forall i :: i in requested ==> 0 <= i < n
  }

  ghost predicate AllMarkedAt(places: seq<Place>) {
    forall i :: 0 <= i < |places| ==> places[i].marked
  }

  lemma NoneChosen(requested: set<int>, places: seq<Place>)
    requires Within(requested, |places|)
    ensures (forall i :: !Chosen(requested, places, i)) <==> requested == {} && AllMarkedAt(places)
  {
    if forall i :: !Chosen(requested, places, i) {
      if requested == {} {
        assert forall i :: 0 <= i < |places| && !places[i].marked ==> Chosen(requested, places, i);
      } else {
        forall i
          ensures i !in requested
        {
          assert !Chosen(requested, places, i);
        }
      }
    }
  }

  /** The first chosen authority that must stay as it is. */
  ghost predicate FirstInTheWay(authorities: seq<Authority>, places: seq<Place>, requested: set<int>, i: int) {
    && |places| == |authorities| && Chosen(requested, places, i) && MustStay(authorities[i], places[i])
    && forall j :: 0 <= j < i && Chosen(requested, places, j) ==> !MustStay(authorities[j], places[j])
  }

  /** The default selection is refused exactly when every marker is already written, even if
      the token store was not published yet. */
  lemma DefaultRefusedIff(places: seq<Place>)
    ensures Selected({}, |places|, Marked(places)) == {} <==> forall i :: 0 <= i < |places| ==> places[i].marked
  {
    if Selected({}, |places|, Marked(places)) == {} {
      forall i | 0 <= i < |places|
        ensures places[i].marked
      {
        assert i in Everything(|places|);
        assert i !in Everything(|places|) - Marked(places);
      }
    } else {
      var i :| i in Selected({}, |places|, Marked(places));
    }
  }

  // ----- how far one authority has got ---------------------------------------------

  predicate Foreign(a: Authority, origin: Place) {
    origin.target.Some? && origin.target.value != a.candidate
  }

  /** The native tree from before is in one archive more than there were. */
  ghost predicate ArchivedOnce(origin: Place, p: Place)
    requires origin.target.Some?
  {
    exists stamp :: stamp !in origin.archives && p.archives == origin.archives[stamp := origin.target.value]
  }

  /** What the operator may start from: a candidate of the prepared identity, a marker only over
      a tree of that identity, and nothing that must not be overwritten. */
  ghost predicate Acceptable(a: Authority, origin: Place) {
    && a.candidate.identity == Some(a.identity)
    && (origin.marked ==> origin.target.Some? && origin.target.value.identity == Some(a.identity))
    && !MustStay(a, origin)
  }

  /** Every state any number of stopped activations can leave one authority in: untouched,
      archived, or installed; the legacy files lose their write bits, and the marker is there,
      only once it is installed, and the marker last. */
  ghost predicate Underway(a: Authority, origin: Place, p: Place) {
    if origin.marked then
      p.marked && p.target == origin.target && p.archives == origin.archives
        && p.legacyWritable == origin.legacyWritable
    else
      || (!p.marked && p.legacyWritable == origin.legacyWritable && p.target == origin.target
          && p.archives == origin.archives)
      || (Foreign(a, origin) && !p.marked && p.legacyWritable == origin.legacyWritable && p.target.None?
          && ArchivedOnce(origin, p))
      || (p.target == Some(a.candidate) && BitsUnderway(a, origin, p)
          && (if Foreign(a, origin) then ArchivedOnce(origin, p) else p.archives == origin.archives))
  }

  ghost predicate BitsUnderway(a: Authority, origin: Place, p: Place) {
    if a.isNew then p.legacyWritable == origin.legacyWritable
    else (p.legacyWritable ==> origin.legacyWritable && !p.marked)
  }

  /** Places that cannot be accepted stay exactly as they were. */
  ghost predicate Respected(a: Authority, origin: Place, p: Place) {
    if Acceptable(a, origin) then Underway(a, origin, p) else p == origin
  }

  ghost predicate AllUnderway(authorities: seq<Authority>, origins: seq<Place>, places: seq<Place>) {
    && |origins| == |authorities| && |places| == |authorities|
    && forall i :: 0 <= i < |places| ==> Respected(authorities[i], origins[i], places[i])
  }

  /** An unmarked authority that the preflight lets through started from an acceptable place. */
  lemma PassedMeansAcceptable(a: Authority, origin: Place, p: Place)
    requires Respected(a, origin, p) && Prepared(a) && MarkerSound(a, p) && !p.marked && !MustStay(a, p)
    ensures Acceptable(a, origin) && Underway(a, origin, p)
  {
  }

  /** Throughout, the original native tree is at the target or in exactly one new archive,
      unless it is the candidate itself. */
  lemma OriginalPreserved(a: Authority, origin: Place, p: Place)
    requires Acceptable(a, origin) && Underway(a, origin, p) && origin.target.Some?
    ensures || (p.target == origin.target && p.archives == origin.archives)
            || (p.target != origin.target && ArchivedOnce(origin, p))
  {
  }

  /** A marker is there only over an installed candidate, or over the state it was found on. */
  lemma MarkedMeansInstalled(a: Authority, origin: Place, p: Place)
    requires Acceptable(a, origin) && Underway(a, origin, p) && p.marked
    ensures p.target == if origin.marked then origin.target else Some(a.candidate)
    ensures MarkerSound(a, p)
  {
  }

  /** So a later activation finds nothing to refuse. */
  lemma UnderwayAcceptable(a: Authority, origin: Place, p: Place)
    requires Acceptable(a, origin) && Underway(a, origin, p)
    ensures MarkerSound(a, p) && !MustStay(a, p)
  {
  }

  // ----- installing one authority --------------------------------------------------

  ghost predicate FreshStamp(p: Place, stamp: Stamp) {
    stamp !in p.archives && stamp !in p.stages
  }

  /** No key but this one was added. */
  ghost predicate OtherKeys(a: set<Stamp>, b: set<Stamp>, stamp: Stamp) {
    b <= a + {stamp}
  }

  lemma OnlyOneStamped(a: seq<Place>, b: seq<Place>, i: int, stamp: Stamp)
    requires |a| == |b| && 0 <= i < |a| && forall j :: 0 <= j < |a| && j != i ==> b[j] == a[j]
    requires OtherKeys(a[i].stages.Keys, b[i].stages.Keys, stamp)
    requires OtherKeys(a[i].archives.Keys, b[i].archives.Keys, stamp)
    ensures OnlyStamp(a, b, stamp)
  {
  }

  /** No stamp but this one was used. */
  ghost predicate OnlyStamp(a: seq<Place>, b: seq<Place>, stamp: Stamp) {
    |a| == |b| && forall i, other :: 0 <= i < |a| && other != stamp && FreshStamp(a[i], other) ==>
      FreshStamp(b[i], other)
  }

  lemma ArchivingKeepsUnderway(a: Authority, origin: Place, p: Place, stamp: Stamp)
    requires Acceptable(a, origin) && Underway(a, origin, p) && !p.marked && p.target.Some?
    requires p.target != Some(a.candidate)
    requires stamp !in p.archives
    ensures Underway(a, origin, p.(target := None, archives := p.archives[stamp := p.target.value]))
  {
    assert p.target == origin.target && p.archives == origin.archives;
    assert p.archives[stamp := p.target.value] == origin.archives[stamp := origin.target.value];
  }

  lemma InstallingKeepsUnderway(a: Authority, origin: Place, p: Place)
    requires Acceptable(a, origin) && Underway(a, origin, p) && !p.marked && p.target.None?
    ensures Underway(a, origin, p.(target := Some(a.candidate)))
  {
  }

  /** One authority activated: the candidate stands at its target under a marker, what stood
      there before, if it was another tree, is in this activation's archive, and the legacy
      files of an authority that was not new lost their write bits. */
  ghost predicate Installed(a: Authority, before: Place, now: Place, stamp: Stamp) {
    && now.marked && now.target == Some(a.candidate) && now.stages == before.stages
    && now.legacyWritable == (a.isNew && before.legacyWritable)
    && now.archives == if before.target.Some? && before.target.value != a.candidate
                       then before.archives[stamp := before.target.value] else before.archives
  }

  lemma AsInstalled(a: Authority, before: Place, staged: Place, now: Place, stamp: Stamp)
    requires stamp !in before.stages && before.target != Some(a.candidate)
    requires staged == before.(stages := before.stages[stamp := Some(a.candidate)])
    requires now.target == Some(a.candidate) && now.stages == staged.stages - {stamp} && !now.marked
    requires now.archives == if staged.target.Some? then staged.archives[stamp := staged.target.value]
      else staged.archives
    requires now.legacyWritable == staged.legacyWritable
    ensures Installed(a, before, now.(marked := true, legacyWritable := a.isNew && now.legacyWritable), stamp)
  {
    assert now.stages == before.stages;
  }

  lemma AsAdopted(a: Authority, before: Place, stamp: Stamp)
    requires before.target == Some(a.candidate)
    ensures Installed(a, before, before.(marked := true, legacyWritable := a.isNew && before.legacyWritable), stamp)
  {
  }

  // ----- how many file-system steps an activation takes -----------------------------

  /** Dropping the legacy write bits, if there are any, and marking. */
  function AdoptSteps(a: Authority, p: Place): nat {
    (if !a.isNew && p.legacyWritable then 1 else 0) + 1
  }

  /** An installed candidate only has to be adopted; otherwise it is copied in two steps, the
      previous tree archived if there is one, and the copy renamed into place first. */
  function StepsOf(a: Authority, p: Place): nat {
    (if p.target == Some(a.candidate) then 0 else if p.target.Some? then 4 else 3) + AdoptSteps(a, p)
  }

  /** What is left of a step budget; None if the activation stops before it is done. */
  function After(steps: nat, needed: nat): Option<nat> {
    if steps < needed then None else Some(steps - needed)
  }

  /** The selected authorities below `n` that are not marked, in manifest order. */
  function Pending(places: seq<Place>, selected: set<int>, n: nat): (r: seq<int>)
    requires n <= |places|
    ensures forall i :: i in r <==> 0 <= i < n && i in selected && !places[i].marked
    ensures forall k :: 0 <= k < |r| ==> 0 <= r[k] < n
    ensures forall j, k :: 0 <= j < k < |r| ==> r[j] < r[k]
  {
    if n == 0 then []
    else Pending(places, selected, n - 1) + (if n - 1 in selected && !places[n - 1].marked then [n - 1] else [])
  }

  lemma PendingNone(places: seq<Place>, selected: set<int>)
    ensures Pending(places, selected, 0) == []
  {
  }

  lemma PendingNext(places: seq<Place>, selected: set<int>, i: nat)
    requires i < |places|
    ensures Pending(places, selected, i + 1) ==
      if i in selected && !places[i].marked then Pending(places, selected, i) + [i] else Pending(places, selected, i)
  {
  }

  function StepsFor(authorities: seq<Authority>, places: seq<Place>, operations: seq<int>): nat
    requires |places| == |authorities| && forall k :: 0 <= k < |operations| ==> 0 <= operations[k] < |places|
  {
    if operations == [] then 0
    else
      var last := operations[|operations| - 1];
      StepsFor(authorities, places, operations[..|operations| - 1]) + StepsOf(authorities[last], places[last])
  }

  lemma StepsForNext(authorities: seq<Authority>, places: seq<Place>, operations: seq<int>, k: int)
    requires |places| == |authorities| && forall j :: 0 <= j < |operations| ==> 0 <= operations[j] < |places|
    requires 0 <= k < |operations|
    ensures StepsFor(authorities, places, operations[..k + 1]) ==
      StepsFor(authorities, places, operations[..k]) + StepsOf(authorities[operations[k]], places[operations[k]])
  {
    assert operations[..k + 1][..k] == operations[..k];
  }

  lemma StepsForAll(authorities: seq<Authority>, places: seq<Place>, operations: seq<int>, k: int)
    requires |places| == |authorities| && forall j :: 0 <= j < |operations| ==> 0 <= operations[j] < |places|
    requires 0 <= k <= |operations|
    ensures StepsFor(authorities, places, operations[..k]) <= StepsFor(authorities, places, operations)
    decreases |operations| - k
  {
    if k == |operations| {
      assert operations[..k] == operations;
    } else {
      StepsForNext(authorities, places, operations, k);
      StepsForAll(authorities, places, operations, k + 1);
    }
  }

  class Installer {
    const authorities: seq<Authority>
    const prepared: seq<Session>
    var places: seq<Place>
    var tokens: Option<Tokens>

    constructor (authorities: seq<Authority>, prepared: seq<Session>, places: seq<Place>, tokens: Option<Tokens>)
      requires |places| == |authorities|
      ensures this.authorities == authorities && this.prepared == prepared && this.places == places
      ensures this.tokens == tokens
    {
      this.authorities, this.prepared, this.places, this.tokens := authorities, prepared, places, tokens;
    }

    /** One authority, step by step: copy the candidate beside the target, move the previous
        tree to the archive, rename the copy into place, drop the legacy write bits, mark.
        `steps` counts down to the stop; None is a stop. */
    method InstallOne(i: int, stamp: Stamp, steps: nat, ghost origins: seq<Place>) returns (left: Option<nat>)
      requires AllUnderway(authorities, origins, places) && 0 <= i < |places| == |authorities| == |origins|
      requires !places[i].marked
      requires Acceptable(authorities[i], origins[i]) && FreshStamp(places[i], stamp)
      requires places[i].target != Some(authorities[i].candidate)
      modifies this`places
      ensures AllUnderway(authorities, origins, places)
      ensures forall j :: 0 <= j < |places| && j != i ==> places[j] == old(places)[j]
      ensures |places| == |authorities|
      ensures OnlyStamp(old(places), places, stamp)
      ensures left.Some? ==> Installed(authorities[i], old(places)[i], places[i], stamp)
      ensures left == After(steps, StepsOf(authorities[i], old(places)[i]))
    {
      hide Acceptable, Underway, OnlyStamp, AllUnderway, Installed;
      ghost var before := places;
      left := Stage(i, stamp, steps, origins);
      ghost var staged := places;
      if left.Some? {
        left := SwapIn(i, stamp, left.value, origins);
      }
      if left.Some? {
        AsInstalled(authorities[i], before[i], staged[i], places[i], stamp);
        left := AdoptOne(i, left.value, origins);
      }
      OnlyOneStamped(before, places, i, stamp);
    }

    /** Copy the candidate beside the target: the copy is there incomplete, then complete. */
    method Stage(i: int, stamp: Stamp, steps: nat, ghost origins: seq<Place>) returns (left: Option<nat>)
      requires AllUnderway(authorities, origins, places) && 0 <= i < |places| == |authorities| == |origins|
      requires !places[i].marked
      requires Acceptable(authorities[i], origins[i])
      modifies this`places
      ensures AllUnderway(authorities, origins, places) && |places| == |authorities|
      ensures forall j :: 0 <= j < |places| && j != i ==> places[j] == old(places)[j]
      ensures places[i] == old(places)[i].(stages := places[i].stages)
      ensures OtherKeys(old(places)[i].stages.Keys, places[i].stages.Keys, stamp)
      ensures left.Some? ==> places[i].stages == old(places)[i].stages[stamp := Some(authorities[i].candidate)]
      ensures left == After(steps, 2)
    {
      hide Acceptable, Underway;
      var a := authorities[i];
      assert Respected(a, origins[i], places[i]);
      if steps == 0 {
        return None;
      }
      StagesAside(a, origins[i], places[i], places[i].stages[stamp := None]);
      places := places[i := places[i].(stages := places[i].stages[stamp := None])];
      if steps == 1 {
        return None;
      }
      StagesAside(a, origins[i], places[i], places[i].stages[stamp := Some(a.candidate)]);
      places := places[i := places[i].(stages := places[i].stages[stamp := Some(a.candidate)])];
      left := Some(steps - 2);
    }

    /** Move the previous tree to the archive, and rename the copy into place. */
    method SwapIn(i: int, stamp: Stamp, steps: nat, ghost origins: seq<Place>) returns (left: Option<nat>)
      requires AllUnderway(authorities, origins, places) && 0 <= i < |places| == |authorities| == |origins|
      requires !places[i].marked
      requires Acceptable(authorities[i], origins[i]) && stamp !in places[i].archives
      requires places[i].target != Some(authorities[i].candidate)
      modifies this`places
      ensures AllUnderway(authorities, origins, places) && |places| == |authorities|
      ensures forall j :: 0 <= j < |places| && j != i ==> places[j] == old(places)[j]
      ensures OtherKeys(old(places)[i].stages.Keys, places[i].stages.Keys, stamp)
      ensures OtherKeys(old(places)[i].archives.Keys, places[i].archives.Keys, stamp)
      ensures !places[i].marked && places[i].legacyWritable == old(places)[i].legacyWritable
      ensures left.Some? ==>
        var was, now := old(places)[i], places[i];
        && now.target == Some(authorities[i].candidate) && now.stages == was.stages - {stamp}
        && now.archives == if was.target.Some? then was.archives[stamp := was.target.value] else was.archives
      ensures left == After(steps, if old(places)[i].target.Some? then 2 else 1)
    {
      hide Acceptable, Underway;
      var a := authorities[i];
      var budget: nat := steps;
      assert Respected(a, origins[i], places[i]);
      if places[i].target.Some? {
        if budget == 0 { return None; }
        ArchivingKeepsUnderway(a, origins[i], places[i], stamp);
        places := places[i := places[i].(target := None,
          archives := places[i].archives[stamp := places[i].target.value])];
        budget := budget - 1;
      }
      if budget == 0 { return None; }
      InstallingKeepsUnderway(a, origins[i], places[i]);
      StagesAside(a, origins[i], places[i].(target := Some(a.candidate)), places[i].stages - {stamp});
      places := places[i := places[i].(target := Some(a.candidate), stages := places[i].stages - {stamp})];
      left := Some(budget - 1);
    }

    /** Drop the legacy write bits, and mark the authority: all that is left to do once its
        candidate is installed, now or by an earlier activation. */
    method AdoptOne(i: int, steps: nat, ghost origins: seq<Place>) returns (left: Option<nat>)
      requires AllUnderway(authorities, origins, places) && 0 <= i < |places| == |authorities| == |origins|
      requires !places[i].marked
      requires Acceptable(authorities[i], origins[i]) && places[i].target == Some(authorities[i].candidate)
      modifies this`places
      ensures AllUnderway(authorities, origins, places) && |places| == |authorities|
      ensures forall j :: 0 <= j < |places| && j != i ==> places[j] == old(places)[j]
      ensures places[i].archives == old(places)[i].archives && places[i].stages == old(places)[i].stages
      ensures left.Some? ==>
        var was := old(places)[i];
        places[i] == was.(marked := true, legacyWritable := authorities[i].isNew && was.legacyWritable)
      ensures left == After(steps, AdoptSteps(authorities[i], old(places)[i]))
    {
      hide Acceptable, Underway;
      var a := authorities[i];
      var budget: nat := steps;
      assert Respected(a, origins[i], places[i]);
      if !a.isNew && places[i].legacyWritable {
        if budget == 0 { return None; }
        WriteBitsAside(a, origins[i], places[i]);
        places := places[i := places[i].(legacyWritable := false)];
        budget := budget - 1;
      }
      if budget == 0 { return None; }
      MarkingKeepsUnderway(a, origins[i], places[i]);
      places := places[i := places[i].(marked := true)];
      left := Some(budget - 1);
    }

    /** Read the markers; each must name an installed authority of its identity. */
    method ReadMarkers() returns (active: set<int>, sound: bool)
      requires |places| == |authorities|
      ensures sound <==> forall i :: 0 <= i < |places| ==> MarkerSound(authorities[i], places[i])
      ensures sound ==> active == Marked(places)
    {
      active := {};
      for i := 0 to |places|
        invariant active == set j | 0 <= j < i && places[j].marked
        invariant forall j :: 0 <= j < i ==> MarkerSound(authorities[j], places[j])
      {
        if !MarkerSound(authorities[i], places[i]) {
          return active, false;
        }
        if places[i].marked {
          active := active + {i};
        }
      }
      sound := true;
    }

    /** The selected authorities that are not active, in manifest order, or why one of them
        is refused; nothing is written. */
    method Preflight(selected: set<int>, active: set<int>) returns (operations: seq<int>, refusal: Option<Refusal>)
      requires |places| == |authorities| && active == Marked(places)
      ensures refusal.Some? <==> exists i :: 0 <= i < |places| && i in selected && MustStay(authorities[i], places[i])
      ensures refusal.None? ==> operations == Pending(places, selected, |places|)
      ensures refusal.Some? ==> exists i :: FirstRefused(places, selected, i, refusal.value)
      ensures refusal.Some? ==> refusal.value in {DiffersFromCandidate, FreshTargetAppeared}
    {
      hide Conflict, Pending, MustStay;
      operations, refusal := [], None;
      PendingNone(places, selected);
      for i := 0 to |places|
        invariant refusal.None?
        invariant operations == Pending(places, selected, i)
        invariant forall j :: 0 <= j < i && j in selected ==> !MustStay(authorities[j], places[j])
      {
        PendingNext(places, selected, i);
        MarkedMayStay(authorities[i], places[i]);
        if i in selected && i !in active {
          ConflictIs(authorities[i], places[i]);
          if Conflict(authorities[i], places[i]).Some? {
            refusal := Conflict(authorities[i], places[i]);
            assert FirstRefused(places, selected, i, refusal.value);
            return;
          }
          operations := operations + [i];
        }
      }
    }

    /** The first selected authority that must stay, and why. */
    ghost predicate FirstRefused(at: seq<Place>, selected: set<int>, i: int, why: Refusal) {
      && |at| == |authorities| && 0 <= i < |at| && i in selected && MustStay(authorities[i], at[i])
      && (forall j :: 0 <= j < i && j in selected ==> !MustStay(authorities[j], at[j]))
      && why == (if at[i].target.value.identity == Some(authorities[i].identity) then DiffersFromCandidate
                 else FreshTargetAppeared)
    }

    ghost predicate AllFresh(stamp: Stamp)
      reads this`places
    {
      forall i :: 0 <= i < |places| && !places[i].marked ==> FreshStamp(places[i], stamp)
    }

    /** Publish the sessions of the authorities that are marked now. */
    method Publish(steps: nat) returns (done: bool)
      requires |places| == |authorities|
      modifies this`tokens
      ensures done <==> steps > 0
      ensures tokens == if done then Some(Document(prepared, Marked(places), old(tokens))) else old(tokens)
      ensures done ==> Publishes(prepared, places, old(tokens), tokens)
    {
      hide Publishes;
      DocumentPublishes(prepared, places, tokens);
      if steps == 0 {
        return false;
      }
      var active := set i | 0 <= i < |places| && places[i].marked;
      tokens := Some(Document(prepared, active, tokens));
      done := true;
    }

    /** Everything the command reads before it writes: candidates, markers, selection, and what
        stands at each target. */
    method Check(requested: set<int>) returns (selected: set<int>, operations: seq<int>, refusal: Option<Refusal>)
      requires |places| == |authorities|
      ensures refusal == Some(CandidateDiffers) <==> !AllPrepared()
      ensures refusal == Some(UnsafeMarker) <==> AllPrepared() && !AllSound(places)
      ensures refusal == Some(UnknownProject) <==> MayLook(places) && !Within(requested, |places|)
      ensures refusal == Some(NothingPending) <==> MayLook(places) && requested == {} && AllMarkedAt(places)
      ensures MayLook(places) && Within(requested, |places|) ==> InTheWay(places, requested, refusal)
      ensures refusal.None? <==> Clear(places, requested)
      ensures refusal.Some? ==> refusal.value in {CandidateDiffers, UnsafeMarker, UnknownProject, NothingPending,
        DiffersFromCandidate, FreshTargetAppeared}
      ensures refusal.None? ==>
        && (forall i :: i in selected <==> Chosen(requested, places, i))
        && selected == Selected(requested, |places|, Marked(places))
        && operations == Pending(places, selected, |places|)
    {
      hide Everything, Pending, MustStay, InTheWay, FirstRefused, Chosen;
      selected, operations := {}, [];
      if i :| 0 <= i < |authorities| && !Prepared(authorities[i]) {
        return selected, operations, Some(CandidateDiffers);
      }
      var active, sound := ReadMarkers();
      if !sound {
        return selected, operations, Some(UnsafeMarker);
      }
      if !(requested <= Everything(|places|)) {
        return selected, operations, Some(UnknownProject);
      }
      selected := Selected(requested, |places|, active);
      MarkedWithin(places);
      ChosenIs(requested, places);
      NoneChosen(requested, places);
      if selected == {} {
        NothingInTheWay(places, selected, requested, Some(NothingPending));
        return selected, operations, Some(NothingPending);
      }
      operations, refusal := Preflight(selected, active);
      if refusal.Some? {
        FirstIsInTheWay(places, selected, requested, refusal.value);
      } else {
        NothingInTheWay(places, selected, requested, refusal);
      }
    }

    /** The refusal names what stands in the way of the first authority that something does. */
    ghost predicate InTheWay(at: seq<Place>, requested: set<int>, refusal: Option<Refusal>) {
      && (refusal in {Some(DiffersFromCandidate), Some(FreshTargetAppeared)} <==>
            exists i :: FirstInTheWay(authorities, at, requested, i))
      && forall i :: FirstInTheWay(authorities, at, requested, i) ==>
           refusal == Some(if at[i].target.value.identity == Some(authorities[i].identity) then DiffersFromCandidate
                           else FreshTargetAppeared)
    }

    lemma StillNothingInTheWay(at: seq<Place>, requested: set<int>)
      requires InTheWay(at, requested, None)
      ensures forall why :: why !in {DiffersFromCandidate, FreshTargetAppeared} ==> InTheWay(at, requested, Some(why))
    {
      hide FirstInTheWay;
    }

    lemma NothingInTheWay(at: seq<Place>, selected: set<int>, requested: set<int>, refusal: Option<Refusal>)
      requires |at| == |authorities| && forall i :: i in selected <==> Chosen(requested, at, i)
      requires forall i :: 0 <= i < |at| && i in selected ==> !MustStay(authorities[i], at[i])
      requires refusal !in {Some(DiffersFromCandidate), Some(FreshTargetAppeared)}
      ensures InTheWay(at, requested, refusal)
    {
      hide MustStay;
      assert forall i :: Chosen(requested, at, i) ==> 0 <= i < |at|;
    }

    lemma FirstIsInTheWay(at: seq<Place>, selected: set<int>, requested: set<int>, why: Refusal)
      requires |at| == |authorities| && forall i :: i in selected <==> Chosen(requested, at, i)
      requires exists i :: FirstRefused(at, selected, i, why)
      ensures InTheWay(at, requested, Some(why))
    {
      var i :| FirstRefused(at, selected, i, why);
      assert FirstInTheWay(authorities, at, requested, i) by { hide MustStay; }
      forall j | FirstInTheWay(authorities, at, requested, j)
        ensures j == i
      {
        assert j in selected;
        hide Chosen, MustStay;
      }
      hide Chosen;
    }

    /** The whole command. It may stop after any step; whatever it does, every authority is
        still underway, and the token store is the previous one or exactly the document of
        the authorities marked now. With nothing in the way it completes in exactly the steps
        its operations take and one more, and one step less leaves the store unpublished. */
    method Activate(requested: set<int>, stamp: Stamp, apply: bool, writersStopped: bool, steps: nat,
                    ghost origins: seq<Place>)
      returns (outcome: Outcome)
      requires AllUnderway(authorities, origins, places) && |places| == |authorities|
      modifies this`places, this`tokens
      ensures AllUnderway(authorities, origins, places) && |places| == |authorities|
      ensures Marked(old(places)) <= Marked(places)
      ensures tokens == old(tokens) || tokens == Some(Document(prepared, Marked(places), old(tokens)))
      ensures OnlyStamp(old(places), places, stamp)
      ensures outcome.DryRun? || (outcome.Refused? && outcome.why != StageExists) ==>
        places == old(places) && tokens == old(tokens)
      ensures outcome == Refused(CandidateDiffers) <==> !AllPrepared()
      ensures outcome == Refused(UnsafeMarker) <==> AllPrepared() && !AllSound(old(places))
      ensures outcome == Refused(UnknownProject) <==> MayLook(old(places)) && !Within(requested, |places|)
      ensures outcome == Refused(NothingPending) <==>
        MayLook(old(places)) && requested == {} && AllMarkedAt(old(places))
      ensures MayLook(old(places)) && Within(requested, |places|) ==>
        InTheWay(old(places), requested, if outcome.Refused? then Some(outcome.why) else None)
      ensures outcome.DryRun? <==> Clear(old(places), requested) && !apply
      ensures outcome == Refused(WritersRunning) <==> Clear(old(places), requested) && apply && !writersStopped
      ensures outcome == Refused(ArchiveExists) <==>
        && Clear(old(places), requested) && apply && writersStopped
        && exists i :: Chosen(requested, old(places), i) && !old(places)[i].marked && stamp in old(places)[i].archives
      ensures MayLook(old(places)) && Within(requested, |places|) ==>
        forall i :: Chosen(requested, old(places), i) && !old(places)[i].marked && old(places)[i].target.Some?
                    && (if old(places)[i].target.value.identity == Some(authorities[i].identity)
                        then old(places)[i].target.value != authorities[i].candidate else authorities[i].isNew) ==>
          outcome in {Refused(DiffersFromCandidate), Refused(FreshTargetAppeared)}
      ensures forall i :: 0 <= i < |places| && !(Chosen(requested, old(places), i) && !old(places)[i].marked) ==>
        places[i] == old(places)[i]
      ensures outcome.Activated? || outcome.AlreadyActive? ==>
        && Clear(old(places), requested) && apply && writersStopped
        && tokens == Some(Document(prepared, Marked(places), old(tokens)))
        && Publishes(prepared, places, old(tokens), tokens)
        && forall i :: Chosen(requested, old(places), i) && !old(places)[i].marked ==>
             Installed(authorities[i], old(places)[i], places[i], stamp)
      ensures outcome.AlreadyActive? ==> forall i :: Chosen(requested, old(places), i) ==> old(places)[i].marked
      ensures outcome.Activated? ==> exists i :: Chosen(requested, old(places), i) && !old(places)[i].marked
      ensures Unhindered(requested, stamp, apply, writersStopped, old(places)) ==>
        && (steps > Needed(requested, old(places)) ==> outcome.Activated? || outcome.AlreadyActive?)
        && (steps == Needed(requested, old(places)) ==>
             outcome.Stopped? && tokens == old(tokens)
             && forall i :: Chosen(requested, old(places), i) ==> places[i].marked)
    {
      hide AllUnderway, Acceptable, Underway, Everything, Marked, MayLook, Pending, StepsFor, OnlyStamp,
        FreshStamp, Chosen, Installed, InTheWay, MustStay, Publishes;
      StampsKept(places, stamp);
      MustStayIs(places);
      var selected, operations, refusal := Check(requested);
      InTheWayRefused(places, requested, refusal);
      if refusal.Some? {
        return Refused(refusal.value);
      }
      StillNothingInTheWay(places, requested);
      if !apply {
        return DryRun;
      }
      if !writersStopped {
        return Refused(WritersRunning);
      }
      PassedAll(requested, origins);
      outcome := Execute(selected, operations, stamp, steps, origins);
    }

    /** What follows an accepted check. */
    method Execute(selected: set<int>, operations: seq<int>, stamp: Stamp, steps: nat, ghost origins: seq<Place>)
      returns (outcome: Outcome)
      requires AllUnderway(authorities, origins, places) && |places| == |authorities| == |origins|
      requires Within(selected, |places|) && operations == Pending(places, selected, |places|)
      requires forall i :: i in selected && !places[i].marked ==> Acceptable(authorities[i], origins[i])
      modifies this`places, this`tokens
      ensures AllUnderway(authorities, origins, places) && |places| == |authorities|
      ensures Marked(old(places)) <= Marked(places)
      ensures tokens == old(tokens) || tokens == Some(Document(prepared, Marked(places), old(tokens)))
      ensures OnlyStamp(old(places), places, stamp)
      ensures outcome in {Refused(ArchiveExists), Refused(StageExists), Activated, AlreadyActive, Stopped}
      ensures outcome == Refused(ArchiveExists) ==> places == old(places) && tokens == old(tokens)
      ensures outcome == Refused(ArchiveExists) <==>
        exists i :: i in selected && !old(places)[i].marked && stamp in old(places)[i].archives
      ensures forall i :: 0 <= i < |places| && !(i in selected && !old(places)[i].marked) ==>
        places[i] == old(places)[i]
      ensures outcome.Activated? || outcome.AlreadyActive? ==>
        && tokens == Some(Document(prepared, Marked(places), old(tokens)))
        && Publishes(prepared, places, old(tokens), tokens)
        && forall i :: i in selected && !old(places)[i].marked ==>
             Installed(authorities[i], old(places)[i], places[i], stamp)
      ensures outcome.AlreadyActive? ==> forall i :: i in selected ==> old(places)[i].marked
      ensures outcome.Activated? ==> exists i :: i in selected && !old(places)[i].marked
      ensures old(AllFresh(stamp)) && steps > StepsFor(authorities, old(places), operations) ==>
        outcome.Activated? || outcome.AlreadyActive?
      ensures old(AllFresh(stamp)) && steps == StepsFor(authorities, old(places), operations) ==>
        outcome.Stopped? && (forall i :: i in selected ==> places[i].marked) && tokens == old(tokens)
    {
      hide AllUnderway, Acceptable, Underway, Everything, Marked, Pending, Document, OnlyStamp, Publishes, Installed;
      StampsKept(places, stamp);
      if operations == [] {
        assert forall i :: i in selected ==> places[i].marked;
        var done := Publish(steps);
        return if done then AlreadyActive else Stopped;
      }
      SomethingLeft(places, selected);
      for k := 0 to |operations|
        invariant forall j :: 0 <= j < k ==> stamp !in places[operations[j]].archives
      {
        if stamp in places[operations[k]].archives {
          assert operations[k] in operations;
          return Refused(ArchiveExists);
        }
      }
      outcome := Apply(operations, selected, stamp, steps, origins);
    }

    lemma StampsKept(at: seq<Place>, stamp: Stamp)
      ensures OnlyStamp(at, at, stamp)
    {
    }

    /** Every candidate names its prepared authority. */
    ghost predicate AllPrepared() {
      forall i :: 0 <= i < |authorities| ==> authorities[i].candidate.identity == Some(authorities[i].identity)
    }

    /** Every marker stands over a tree of its authority. */
    ghost predicate AllSound(at: seq<Place>) {
      |at| == |authorities| && forall i :: 0 <= i < |at| && at[i].marked ==>
        at[i].target.Some? && at[i].target.value.identity == Some(authorities[i].identity)
    }

    /** The earlier checks pass: candidates are as prepared, and markers are sound. */
    ghost predicate MayLook(at: seq<Place>) {
      |at| == |authorities| && AllPrepared() && AllSound(at)
    }

    /** Nothing is wrong with what was prepared, marked and requested, something is chosen, and
        nothing stands in its way. */
    ghost predicate Clear(at: seq<Place>, requested: set<int>) {
      && MayLook(at) && Within(requested, |at|) && (exists i :: Chosen(requested, at, i))
      && forall i :: Chosen(requested, at, i) ==> !MustStay(authorities[i], at[i])
    }

    /** How many steps it takes to install and mark everything chosen. */
    function Needed(requested: set<int>, at: seq<Place>): nat {
      if |at| == |authorities| then StepsFor(authorities, at, Pending(at, Selected(requested, |at|, Marked(at)), |at|))
      else 0
    }

    /** Nothing, inside or outside, stands in the way of activating what is chosen. */
    ghost predicate Unhindered(requested: set<int>, stamp: Stamp, apply: bool, writersStopped: bool, at: seq<Place>) {
      && Clear(at, requested) && apply && writersStopped
      && forall i :: 0 <= i < |at| && !at[i].marked ==> FreshStamp(at[i], stamp)
    }

    lemma MustStayIs(at: seq<Place>)
      requires |at| == |authorities|
      ensures forall i :: 0 <= i < |at| && !at[i].marked && at[i].target.Some?
                          && (if at[i].target.value.identity == Some(authorities[i].identity)
                              then at[i].target.value != authorities[i].candidate else authorities[i].isNew) ==>
        MustStay(authorities[i], at[i])
    {
    }

    lemma InTheWayRefused(at: seq<Place>, requested: set<int>, refusal: Option<Refusal>)
      requires |at| == |authorities| && (refusal.None? ==> Clear(at, requested))
      requires MayLook(at) && Within(requested, |at|) ==> InTheWay(at, requested, refusal)
      ensures MayLook(at) && Within(requested, |at|) ==>
        forall i :: Chosen(requested, at, i) && MustStay(authorities[i], at[i]) ==>
          refusal in {Some(DiffersFromCandidate), Some(FreshTargetAppeared)}
    {
      hide MustStay, MayLook, Chosen;
      assert forall i :: Chosen(requested, at, i) ==> 0 <= i < |at| by { ChosenInRange(requested, at); }
      forall i | MayLook(at) && Within(requested, |at|) && Chosen(requested, at, i) && MustStay(authorities[i], at[i])
        ensures refusal in {Some(DiffersFromCandidate), Some(FreshTargetAppeared)}
      {
        FirstExists(at, requested, i);
      }
    }

    lemma FirstExists(at: seq<Place>, requested: set<int>, i: int)
      requires |at| == |authorities| && Chosen(requested, at, i) && MustStay(authorities[i], at[i])
      ensures exists j :: FirstInTheWay(authorities, at, requested, j)
      decreases i
    {
      hide MustStay;
      assert 0 <= i < |at|;
      if j :| 0 <= j < i && Chosen(requested, at, j) && MustStay(authorities[j], at[j]) {
        FirstExists(at, requested, j);
      } else {
        assert FirstInTheWay(authorities, at, requested, i);
      }
    }

    /** What was acceptable to begin with stays so, wherever the activations before stopped. */
    lemma UnderwayIsClear(at: seq<Place>, origins: seq<Place>)
      requires AllUnderway(authorities, origins, at)
      requires forall i :: 0 <= i < |origins| ==> Acceptable(authorities[i], origins[i])
      ensures MayLook(at) && forall i :: 0 <= i < |at| ==> !MustStay(authorities[i], at[i])
    {
      forall i | 0 <= i < |at|
        ensures authorities[i].candidate.identity == Some(authorities[i].identity)
        ensures at[i].marked ==> at[i].target.Some? && at[i].target.value.identity == Some(authorities[i].identity)
        ensures !MustStay(authorities[i], at[i])
      {
        assert Respected(authorities[i], origins[i], at[i]);
        UnderwayAcceptable(authorities[i], origins[i], at[i]);
      }
    }

    lemma PassedAll(requested: set<int>, origins: seq<Place>)
      requires AllUnderway(authorities, origins, places) && Clear(places, requested)
      ensures |origins| == |authorities|
      ensures forall i :: Chosen(requested, places, i) && !places[i].marked ==> Acceptable(authorities[i], origins[i])
    {
      forall i | Chosen(requested, places, i) && !places[i].marked
        ensures Acceptable(authorities[i], origins[i])
      {
        assert Respected(authorities[i], origins[i], places[i]);
        PassedMeansAcceptable(authorities[i], origins[i], places[i]);
      }
    }

    /** One operation: install the candidate, or adopt it if it is there; refused if the
        staging path is taken. */
    method RunOne(i: int, stamp: Stamp, steps: nat, ghost origins: seq<Place>) returns (left: Option<nat>, taken: bool)
      requires AllUnderway(authorities, origins, places) && 0 <= i < |places| == |authorities| == |origins|
      requires !places[i].marked
      requires Acceptable(authorities[i], origins[i]) && stamp !in places[i].archives
      modifies this`places
      ensures AllUnderway(authorities, origins, places) && |places| == |authorities|
      ensures forall j :: 0 <= j < |places| && j != i ==> places[j] == old(places)[j]
      ensures OnlyStamp(old(places), places, stamp)
      ensures taken ==> stamp in old(places)[i].stages && places == old(places)
      ensures !taken ==> left == After(steps, StepsOf(authorities[i], old(places)[i]))
      ensures !taken && left.Some? ==> Installed(authorities[i], old(places)[i], places[i], stamp)
    {
      hide AllUnderway, Acceptable, Underway, Installed;
      left, taken := None, false;
      if places[i].target == Some(authorities[i].candidate) {
        AsAdopted(authorities[i], places[i], stamp);
        left := AdoptOne(i, steps, origins);
      } else if stamp in places[i].stages {
        taken := true;
      } else {
        left := InstallOne(i, stamp, steps, origins);
      }
    }

    /** What the loop over the operations has done after `k` of them. */
    ghost predicate DoneUpTo(operations: seq<int>, k: int, before: seq<Place>, at: seq<Place>, stamp: Stamp) {
      && |at| == |before| == |authorities| && 0 <= k <= |operations|
      && (forall j :: 0 <= j < |operations| ==> 0 <= operations[j] < |at|)
      && (forall j :: 0 <= j < k ==>
           Installed(authorities[operations[j]], before[operations[j]], at[operations[j]], stamp))
      && (forall j :: k <= j < |operations| ==> at[operations[j]] == before[operations[j]])
      && (forall i :: 0 <= i < |at| && i !in operations ==> at[i] == before[i])
      && OnlyStamp(before, at, stamp)
    }

    lemma DoneNext(operations: seq<int>, k: int, before: seq<Place>, middle: seq<Place>, at: seq<Place>, stamp: Stamp)
      requires DoneUpTo(operations, k, before, middle, stamp) && k < |operations| && |at| == |middle|
      requires forall i, j :: 0 <= i < j < |operations| ==> operations[i] < operations[j]
      requires forall j :: 0 <= j < |at| && j != operations[k] ==> at[j] == middle[j]
      requires OnlyStamp(middle, at, stamp)
      ensures OnlyStamp(before, at, stamp) && (forall i :: 0 <= i < |at| && i !in operations ==> at[i] == before[i])
      ensures Installed(authorities[operations[k]], middle[operations[k]], at[operations[k]], stamp) ==>
        DoneUpTo(operations, k + 1, before, at, stamp)
    {
      hide FreshStamp, Installed;
      assert operations[k] in operations;
    }

    lemma DoneInstalls(operations: seq<int>, selected: set<int>, before: seq<Place>, at: seq<Place>, stamp: Stamp)
      requires DoneUpTo(operations, |operations|, before, at, stamp) && Within(selected, |at|)
      requires forall i :: 0 <= i < |at| && i in selected && !before[i].marked ==> i in operations
      ensures forall i :: i in selected && !before[i].marked ==> Installed(authorities[i], before[i], at[i], stamp)
    {
      hide OnlyStamp, Installed;
      forall i | i in selected && !before[i].marked
        ensures Installed(authorities[i], before[i], at[i], stamp)
      {
        var k :| 0 <= k < |operations| && operations[k] == i;
      }
    }

    /** Run the operations in order. With fresh stamps it gets as far as its steps allow. */
    method InstallAll(operations: seq<int>, stamp: Stamp, steps: nat, ghost origins: seq<Place>)
      returns (left: Option<nat>, taken: bool)
      requires AllUnderway(authorities, origins, places) && |places| == |authorities| == |origins|
      requires forall k :: 0 <= k < |operations| ==> 0 <= operations[k] < |places| && !places[operations[k]].marked
      requires forall k :: 0 <= k < |operations| ==> Acceptable(authorities[operations[k]], origins[operations[k]])
      requires forall j, k :: 0 <= j < k < |operations| ==> operations[j] < operations[k]
      requires forall k :: 0 <= k < |operations| ==> stamp !in places[operations[k]].archives
      modifies this`places
      ensures AllUnderway(authorities, origins, places) && |places| == |authorities|
      ensures OnlyStamp(old(places), places, stamp)
      ensures (forall i :: 0 <= i < |places| && i !in operations ==> places[i] == old(places)[i])
      ensures !taken && left.Some? ==> DoneUpTo(operations, |operations|, old(places), places, stamp)
      ensures taken ==> exists k :: 0 <= k < |operations| && stamp in old(places)[operations[k]].stages
      ensures !taken ==> left == After(steps, StepsFor(authorities, old(places), operations))
    {
      hide AllUnderway, Acceptable, StepsFor, StepsOf, OnlyStamp;
      ghost var before := places;
      var budget: nat := steps;
      StampsKept(places, stamp);
      StepsForNone(authorities, places, operations);
      for k := 0 to |operations|
        invariant AllUnderway(authorities, origins, places) && DoneUpTo(operations, k, before, places, stamp)
        invariant steps == budget + StepsFor(authorities, before, operations[..k])
      {
        StepsForNext(authorities, before, operations, k);
        StepsForAll(authorities, before, operations, k + 1);
        ghost var middle := places;
        left, taken := RunOne(operations[k], stamp, budget, origins);
        DoneNext(operations, k, before, middle, places, stamp);
        if taken || left.None? {
          return;
        }
        budget := left.value;
      }
      assert operations[..|operations|] == operations;
      left, taken := Some(budget), false;
    }

    /** The writes of an accepted activation. */
    method Apply(operations: seq<int>, selected: set<int>, stamp: Stamp, steps: nat, ghost origins: seq<Place>)
      returns (outcome: Outcome)
      requires AllUnderway(authorities, origins, places) && |places| == |authorities| == |origins|
      requires Within(selected, |places|) && operations == Pending(places, selected, |places|)
      requires forall i :: i in selected && !places[i].marked ==> Acceptable(authorities[i], origins[i])
      requires forall k :: 0 <= k < |operations| ==> stamp !in places[operations[k]].archives
      modifies this`places, this`tokens
      ensures AllUnderway(authorities, origins, places) && |places| == |authorities|
      ensures Marked(old(places)) <= Marked(places)
      ensures tokens == old(tokens) || tokens == Some(Document(prepared, Marked(places), old(tokens)))
      ensures OnlyStamp(old(places), places, stamp)
      ensures outcome == Refused(StageExists) || outcome.Activated? || outcome.Stopped?
      ensures forall i :: 0 <= i < |places| && !(i in selected && !old(places)[i].marked) ==>
        places[i] == old(places)[i]
      ensures outcome.Activated? ==>
        && tokens == Some(Document(prepared, Marked(places), old(tokens)))
        && Publishes(prepared, places, old(tokens), tokens)
        && forall i :: i in selected && !old(places)[i].marked ==>
             Installed(authorities[i], old(places)[i], places[i], stamp)
      ensures old(AllFresh(stamp)) && steps > StepsFor(authorities, old(places), operations) ==> outcome.Activated?
      ensures old(AllFresh(stamp)) && steps == StepsFor(authorities, old(places), operations) ==>
        outcome.Stopped? && (forall i :: i in selected ==> places[i].marked) && tokens == old(tokens)
    {
      hide AllUnderway, Acceptable, Everything, Pending, StepsFor, Document, OnlyStamp, DoneUpTo, Marked, Publishes,
        Installed;
      ghost var before := places;
      PendingAt(places, selected);
      var left, taken := InstallAll(operations, stamp, steps, origins);
      MarkedGrow(before, places, operations);
      if taken {
        return Refused(StageExists);
      }
      if left.None? {
        return Stopped;
      }
      DoneInstalls(operations, selected, before, places, stamp);
      AllMarkedNow(selected, before, places, stamp);
      var done := Publish(left.value);
      outcome := if done then Activated else Stopped;
    }

    lemma AllMarkedNow(selected: set<int>, before: seq<Place>, at: seq<Place>, stamp: Stamp)
      requires |at| == |before| == |authorities| && Within(selected, |at|)
      requires forall i :: i in selected && !before[i].marked ==> Installed(authorities[i], before[i], at[i], stamp)
      requires forall i :: 0 <= i < |at| && before[i].marked ==> at[i] == before[i]
      ensures forall i :: i in selected ==> at[i].marked
    {
    }
  }

  lemma PendingAt(places: seq<Place>, selected: set<int>)
    ensures var operations := Pending(places, selected, |places|);
      && (forall k :: 0 <= k < |operations| ==>
           0 <= operations[k] < |places| && operations[k] in selected && !places[operations[k]].marked)
  {
    hide Pending;
    var operations := Pending(places, selected, |places|);
    forall k | 0 <= k < |operations|
      ensures 0 <= operations[k] < |places| && operations[k] in selected && !places[operations[k]].marked
    {
      assert operations[k] in operations;
    }
  }

  lemma StepsForNone(authorities: seq<Authority>, places: seq<Place>, operations: seq<int>)
    requires |places| == |authorities| && forall j :: 0 <= j < |operations| ==> 0 <= operations[j] < |places|
    ensures operations[..0] == [] && StepsFor(authorities, places, operations[..0]) == 0
  {
  }

  lemma StagesAside(a: Authority, origin: Place, p: Place, stages: map<Stamp, Option<Tree>>)
    requires Acceptable(a, origin) && Underway(a, origin, p)
    ensures Underway(a, origin, p.(stages := stages))
  {
  }

  lemma WriteBitsAside(a: Authority, origin: Place, p: Place)
    requires Acceptable(a, origin) && Underway(a, origin, p)
    requires !p.marked && !a.isNew && p.target == Some(a.candidate)
    ensures Underway(a, origin, p.(legacyWritable := false))
  {
  }

  lemma MarkingKeepsUnderway(a: Authority, origin: Place, p: Place)
    requires Acceptable(a, origin) && Underway(a, origin, p) && !p.marked && p.target == Some(a.candidate)
    requires p.legacyWritable ==> a.isNew
    ensures Underway(a, origin, p.(marked := true))
  {
  }

  lemma MarkedWithin(places: seq<Place>)
    ensures Marked(places) <= Everything(|places|)
    ensures Everything(|places|) - Marked(places) == {} <==> Marked(places) == Everything(|places|)
  {
    if Everything(|places|) - Marked(places) == {} {
      forall i | i in Everything(|places|)
        ensures i in Marked(places)
      {
        assert i !in Everything(|places|) - Marked(places);
      }
    }
  }

  lemma SomethingLeft(places: seq<Place>, selected: set<int>)
    requires Within(selected, |places|) && Pending(places, selected, |places|) != []
    ensures exists i :: i in selected && !places[i].marked
  {
    hide Pending;
    var first := Pending(places, selected, |places|)[0];
    assert first in Pending(places, selected, |places|);
  }

  lemma MarkedGrow(a: seq<Place>, b: seq<Place>, operations: seq<int>)
    requires |a| == |b| && forall i :: 0 <= i < |a| && i !in operations ==> b[i] == a[i]
    requires forall i :: i in operations ==> 0 <= i < |a| && !a[i].marked
    ensures Marked(a) <= Marked(b)
  {
  }

  // ----- convergence ---------------------------------------------------------------

  /** What an activation of every authority leaves behind. */
  ghost predicate Complete(authorities: seq<Authority>, prepared: seq<Session>, origins: seq<Place>,
                           original: Option<Tokens>,
                           places: seq<Place>, tokens: Option<Tokens>) {
    && |places| == |authorities| == |origins|
    && (forall i :: 0 <= i < |places| ==>
          && places[i].marked
          && places[i].target == (if origins[i].marked then origins[i].target else Some(authorities[i].candidate)))
    && tokens == Some(Document(prepared, Everything(|places|), original))
    && Publishes(prepared, places, original, tokens)
  }

  /** One earlier activation: any selection, any stamp, stopped after any number of steps. */
  datatype Attempt = Attempt(requested: set<int>, stamp: Stamp, apply: bool, writersStopped: bool, steps: nat)

  /** An unmarked tree of the same identity that is not the candidate, an unmarked foreign tree
      where a new authority was to go, a candidate of another identity and a marker over anything
      but a tree of its identity are exactly as they were. */
  ghost predicate RefusedLeftAlone(authorities: seq<Authority>, before: seq<Place>, at: seq<Place>) {
    && |at| == |before| == |authorities|
    && forall i :: 0 <= i < |at| ==>
         var a, p := authorities[i], before[i];
         && (!p.marked && p.target.Some? && p.target.value.identity == Some(a.identity)
             && p.target.value != a.candidate ==>
               at[i] == p)
         && (!p.marked && p.target.Some? && p.target.value.identity != Some(a.identity) && a.isNew ==> at[i] == p)
         && (a.candidate.identity != Some(a.identity) ==> at[i] == p)
         && (p.marked && (p.target.None? || p.target.value.identity != Some(a.identity)) ==> at[i] == p)
  }

  ghost predicate NotTried(attempts: seq<Attempt>, stamp: Stamp) {
    forall k :: 0 <= k < |attempts| ==> attempts[k].stamp != stamp
  }

  ghost predicate UntriedStayFresh(attempts: seq<Attempt>, before: seq<Place>, at: seq<Place>) {
    && |at| == |before|
    && forall i, stamp :: 0 <= i < |at| && NotTried(attempts, stamp) && FreshStamp(before[i], stamp) ==>
         FreshStamp(at[i], stamp)
  }

  /** Any number of activations, each stopped anywhere, from any places whatever: those that
      can be accepted are underway, all others are exactly as they were, and so is every tree
      that must not be overwritten; the token store keeps its runtime records. */
  method AttemptAll(installer: Installer, attempts: seq<Attempt>)
    requires |installer.places| == |installer.authorities|
    modifies installer
    ensures AllUnderway(installer.authorities, old(installer.places), installer.places)
    ensures |installer.places| == |installer.authorities|
    ensures RefusedLeftAlone(installer.authorities, old(installer.places), installer.places)
    ensures SameRecords(old(installer.tokens), installer.tokens)
    ensures UntriedStayFresh(attempts, old(installer.places), installer.places)
  {
    hide AllUnderway, Acceptable, Underway, Marked, FreshStamp, NotTried;
    ghost var origins, original := installer.places, installer.tokens;
    StartsUnderway(installer.authorities, origins);
    for k := 0 to |attempts|
      invariant AllUnderway(installer.authorities, origins, installer.places)
      invariant |installer.places| == |installer.authorities|
      invariant SameRecords(original, installer.tokens)
      invariant UntriedStayFresh(attempts, origins, installer.places)
    {
      var a := attempts[k];
      ghost var before := installer.tokens;
      var _ := installer.Activate(a.requested, a.stamp, a.apply, a.writersStopped, a.steps, origins);
      RecordsKept(installer.prepared, Marked(installer.places), original, before);
      Tried(attempts, k);
    }
    RestRespected(installer.authorities, origins, installer.places);
  }

  lemma Tried(attempts: seq<Attempt>, k: int)
    requires 0 <= k < |attempts|
    ensures !NotTried(attempts, attempts[k].stamp)
  {
  }

  lemma RestRespected(authorities: seq<Authority>, origins: seq<Place>, places: seq<Place>)
    requires AllUnderway(authorities, origins, places)
    ensures |places| == |authorities| == |origins|
    ensures RefusedLeftAlone(authorities, origins, places)
  {
    hide Underway;
    forall i | 0 <= i < |places|
      ensures !Acceptable(authorities[i], origins[i]) ==> places[i] == origins[i]
    {
      assert Respected(authorities[i], origins[i], places[i]);
    }
  }

  /** However often activation was stopped, and wherever, activating everything explicitly
      with a stamp not used before completes, and leaves the same targets, markers and token
      store as one uninterrupted activation: `attempts` may be empty. */
  method Converge(installer: Installer, attempts: seq<Attempt>, stamp: Stamp) returns (outcome: Outcome)
    requires |installer.places| == |installer.authorities| > 0
    requires forall i :: 0 <= i < |installer.places| ==> Acceptable(installer.authorities[i], installer.places[i])
    requires forall i :: 0 <= i < |installer.places| ==> FreshStamp(installer.places[i], stamp)
    requires NotTried(attempts, stamp)
    modifies installer
    ensures outcome.Activated? || outcome.AlreadyActive?
    ensures AllUnderway(installer.authorities, old(installer.places), installer.places)
    ensures Complete(installer.authorities, installer.prepared, old(installer.places), old(installer.tokens),
      installer.places, installer.tokens)
  {
    hide AllUnderway, Acceptable, Underway, Everything, Marked, NotTried, FreshStamp;
    ghost var origins, original := installer.places, installer.tokens;
    AttemptAll(installer, attempts);
    var n := |installer.places|;
    ghost var before := installer.tokens;
    var all := Everything(n);
    outcome := ActivateAll(installer, stamp, installer.Needed(all, installer.places) + 1, origins);
    RecordsKept(installer.prepared, Marked(installer.places), original, before);
    StillPublishes(installer.prepared, installer.places, original, before, installer.tokens);
    AllMarked(installer.authorities, origins, installer.places);
  }

  /** Everything requested explicitly, with one step more than the operations take. */
  method ActivateAll(installer: Installer, stamp: Stamp, steps: nat, ghost origins: seq<Place>)
    returns (outcome: Outcome)
    requires AllUnderway(installer.authorities, origins, installer.places) && |origins| > 0
    requires forall i :: 0 <= i < |origins| ==> Acceptable(installer.authorities[i], origins[i])
    requires forall i :: 0 <= i < |installer.places| && !installer.places[i].marked ==>
      FreshStamp(installer.places[i], stamp)
    requires steps > installer.Needed(Everything(|installer.places|), installer.places)
    modifies installer
    ensures outcome.Activated? || outcome.AlreadyActive?
    ensures old(Everything(|installer.places|) == Marked(installer.places)) ==> outcome.AlreadyActive?
    ensures AllUnderway(installer.authorities, origins, installer.places)
    ensures |installer.places| == |installer.authorities| && Marked(installer.places) == Everything(|installer.places|)
    ensures installer.tokens == Some(Document(installer.prepared, Everything(|installer.places|),
      old(installer.tokens)))
    ensures Publishes(installer.prepared, installer.places, old(installer.tokens), installer.tokens)
  {
    hide AllUnderway, Acceptable, Underway, Everything, Marked, FreshStamp, Installer.Unhindered, Installer.Needed,
      Document,
      MustStay, Chosen, Publishes;
    SizesOf(installer.authorities, origins, installer.places);
    ghost var before := installer.places;
    if Everything(|before|) == Marked(before) {
      MarkedAll(before);
      ChosenInRange(Everything(|before|), before);
    }
    MayActivate(installer, stamp, origins);
    outcome := installer.Activate(Everything(|installer.places|), stamp, true, true, steps, origins);
    ChosenAreMarked(before, installer.places);
  }

  lemma SizesOf(authorities: seq<Authority>, origins: seq<Place>, places: seq<Place>)
    requires AllUnderway(authorities, origins, places)
    ensures |origins| == |authorities| == |places|
  {
  }

  lemma MarkedAll(places: seq<Place>)
    requires Marked(places) == Everything(|places|)
    ensures AllMarkedAt(places)
  {
    hide Everything;
    forall i | 0 <= i < |places|
      ensures places[i].marked
    {
      assert i in Everything(|places|);
    }
  }

  /** When everything that was chosen is marked, everything is. */
  lemma ChosenAreMarked(before: seq<Place>, places: seq<Place>)
    requires |before| == |places| > 0
    requires forall i :: 0 <= i < |places| && before[i].marked ==> places[i].marked
    requires forall i :: Chosen(Everything(|before|), before, i) && !before[i].marked ==> places[i].marked
    ensures Marked(places) == Everything(|places|)
  {
    assert 0 in Everything(|before|);
    forall i | 0 <= i < |places|
      ensures places[i].marked
    {
      assert i in Everything(|before|);
      assert Chosen(Everything(|before|), before, i);
    }
    hide Everything;
  }

  lemma MayActivate(installer: Installer, stamp: Stamp, origins: seq<Place>)
    requires AllUnderway(installer.authorities, origins, installer.places) && |origins| > 0
    requires forall i :: 0 <= i < |origins| ==> Acceptable(installer.authorities[i], origins[i])
    requires forall i :: 0 <= i < |installer.places| && !installer.places[i].marked ==>
      FreshStamp(installer.places[i], stamp)
    ensures installer.Unhindered(Everything(|origins|), stamp, true, true, installer.places)
  {
    installer.UnderwayIsClear(installer.places, origins);
    hide Acceptable, FreshStamp, Underway, MustStay;
    assert 0 in Everything(|origins|);
    assert Chosen(Everything(|origins|), installer.places, 0);
  }

  lemma NothingNeeded(installer: Installer)
    requires |installer.places| == |installer.authorities| && Everything(|installer.places|) <= Marked(installer.places)
    ensures installer.Needed(Everything(|installer.places|), installer.places) == 0
    ensures forall i :: 0 <= i < |installer.places| ==> installer.places[i].marked
  {
    hide Pending;
    var all := Everything(|installer.places|);
    forall i | 0 <= i < |installer.places|
      ensures installer.places[i].marked
    {
      assert i in all;
    }
    if Pending(installer.places, all, |installer.places|) != [] {
      SomethingLeft(installer.places, all);
    }
  }

  /** Stopped just before the token store: every marker is written and the store is the old
      one. The same command without a selection is then refused and publishes nothing; with
      everything selected it publishes. */
  method StopBeforePublishing(installer: Installer, stamp: Stamp, again: nat)
    returns (stopped: Outcome, refused: Outcome, published: Outcome, ghost between: Option<Tokens>)
    requires |installer.places| == |installer.authorities| > 0
    requires forall i :: 0 <= i < |installer.places| ==> Acceptable(installer.authorities[i], installer.places[i])
    requires forall i :: 0 <= i < |installer.places| ==> FreshStamp(installer.places[i], stamp)
    modifies installer
    ensures stopped.Stopped? && refused == Refused(NothingPending) && published.AlreadyActive?
    ensures between == old(installer.tokens)
    ensures Complete(installer.authorities, installer.prepared, old(installer.places), old(installer.tokens),
      installer.places, installer.tokens)
  {
    hide AllUnderway, Acceptable, Underway, Everything, Marked, FreshStamp, StepsFor, Document;
    ghost var origins := installer.places;
    StartsUnderway(installer.authorities, origins);
    MayActivate(installer, stamp, origins);
    stopped := StopBeforeTokens(installer, stamp, origins);
    refused, between := RunByDefault(installer, stamp, again, origins);
    NothingNeeded(installer);
    published := ActivateAll(installer, stamp, 1, origins);
    AllMarked(installer.authorities, origins, installer.places);
    hide *;
    assert published.AlreadyActive?;
  }

  /** The activation that runs out of steps just before it would publish. */
  method StopBeforeTokens(installer: Installer, stamp: Stamp, ghost origins: seq<Place>) returns (stopped: Outcome)
    requires |installer.places| == |installer.authorities| > 0
    requires AllUnderway(installer.authorities, origins, installer.places)
    requires installer.Unhindered(Everything(|installer.places|), stamp, true, true, installer.places)
    modifies installer
    ensures |installer.places| == |installer.authorities|
    ensures AllUnderway(installer.authorities, origins, installer.places)
    ensures stopped.Stopped? && installer.tokens == old(installer.tokens)
    ensures Marked(installer.places) == Everything(|installer.places|)
  {
    hide AllUnderway, Acceptable, Underway, Everything, Marked, FreshStamp, Installer.Unhindered, Installer.Needed,
      Installer.MayLook, Chosen, Installed, MustStay, Publishes;
    var all := Everything(|installer.places|);
    ghost var before := installer.places;
    stopped := installer.Activate(all, stamp, true, true, installer.Needed(all, installer.places), origins);
    ChosenAreMarked(before, installer.places);
  }

  /** The same command with the default selection. */
  method RunByDefault(installer: Installer, stamp: Stamp, steps: nat, ghost origins: seq<Place>)
    returns (refused: Outcome, ghost tokens: Option<Tokens>)
    requires |installer.places| == |installer.authorities| == |origins|
    requires AllUnderway(installer.authorities, origins, installer.places)
    requires Marked(installer.places) == Everything(|installer.places|) && |origins| > 0
    requires forall i :: 0 <= i < |origins| ==> Acceptable(installer.authorities[i], origins[i])
    modifies installer
    ensures refused == Refused(NothingPending) && tokens == installer.tokens
    ensures installer.places == old(installer.places) && installer.tokens == old(installer.tokens)
  {
    hide AllUnderway, Acceptable, Underway, Everything, Marked, FreshStamp, Installer.Needed;
    assert 0 in Everything(|origins|);
    installer.UnderwayIsClear(installer.places, origins);
    MarkedAll(installer.places);
    tokens := installer.tokens;
    refused := installer.Activate({}, stamp, true, true, steps, origins);
  }

  /** The runtime records of the original token store, if there was one. */
  ghost predicate SameRecords(original: Option<Tokens>, now: Option<Tokens>) {
    && (now.None? ==> original.None?)
    && (now.Some? ==>
          && now.value.attempts == (if original.Some? then original.value.attempts else [])
          && now.value.children == (if original.Some? then original.value.children else []))
  }

  lemma RecordsKept(prepared: seq<Session>, active: set<int>, original: Option<Tokens>, previous: Option<Tokens>)
    requires SameRecords(original, previous)
    ensures Document(prepared, active, previous) == Document(prepared, active, original)
    ensures SameRecords(original, Some(Document(prepared, active, previous)))
  {
  }

  lemma StillPublishes(prepared: seq<Session>, places: seq<Place>, original: Option<Tokens>, previous: Option<Tokens>,
                       now: Option<Tokens>)
    requires SameRecords(original, previous) && Publishes(prepared, places, previous, now)
    ensures Publishes(prepared, places, original, now)
  {
    hide RowsAt;
  }

  lemma StartsUnderway(authorities: seq<Authority>, origins: seq<Place>)
    requires |origins| == |authorities|
    ensures AllUnderway(authorities, origins, origins)
  {
  }

  lemma AllMarked(authorities: seq<Authority>, origins: seq<Place>, places: seq<Place>)
    requires AllUnderway(authorities, origins, places) && Marked(places) == Everything(|places|)
    requires |origins| == |authorities| && forall i :: 0 <= i < |origins| ==> Acceptable(authorities[i], origins[i])
    ensures forall i :: 0 <= i < |places| ==>
      && places[i].marked && i < |origins| && i < |authorities|
      && places[i].target == (if origins[i].marked then origins[i].target else Some(authorities[i].candidate))
  {
    forall i | 0 <= i < |places|
      ensures places[i].marked
      ensures places[i].target == (if origins[i].marked then origins[i].target else Some(authorities[i].candidate))
    {
      assert i in Marked(places) by { assert i in Everything(|places|); }
      assert Respected(authorities[i], origins[i], places[i]);
      MarkedMeansInstalled(authorities[i], origins[i], places[i]);
    }
  }
}
