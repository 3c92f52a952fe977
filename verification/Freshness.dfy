/** Is a stored answer still fresh? A walk over the packets it rests on, through parents and
    nested packet references, that revalidates what each of them read. */
module Freshness {
  import opened Prelude

  type Ref = string
  type Path = string
  type Digest = string

  /** One recorded read; `provable` says it was a direct cat or a valid line window. */
  datatype Read = Read(path: Path, digest: Digest, provable: bool)

  datatype Change =
    | Unresolved(ref: Ref) | ReadChanged(path: Path) | Omission(ref: Ref, detail: string)
    | ResultMissing | SelectionProofMissing(detail: string) | ManifestMissing

  datatype Check = CheckedRead(path: Path) | CheckedSource(detail: string)

  /** A packet the store resolved for this scope. `completed` is an untruncated success;
      `sources` and `dependencies` are its declared ones, and `omissions` what assembling it
      as a hint reports, apart from duplicates. */
  datatype Packet = Packet(
    parents: seq<Ref>, nested: Option<Ref>, command: bool, completed: bool, recorded: seq<Read>,
    sources: seq<string>, dependencies: seq<string>, omissions: seq<string>)

  /** The packet store's answers and the files' present digests. */
  datatype World = World(packets: map<Ref, Packet>, hash: Path -> Option<Digest>)

  // ----- what one packet contributes -----------------------------------------------

  predicate Holds(w: World, p: Packet, r: Read) {
    p.completed && r.provable && w.hash(r.path) == Some(r.digest) && r.digest != ""
  }

  function BrokenReads(w: World, p: Packet, items: seq<Read>): seq<Change> {
    if items == [] then []
    else (if Holds(w, p, items[0]) then [] else [ReadChanged(items[0].path)]) + BrokenReads(w, p, items[1..])
  }

  function ReadChecks(items: seq<Read>): seq<Check> {
    if items == [] then [] else [CheckedRead(items[0].path)] + ReadChecks(items[1..])
  }

  function Details(items: seq<string>): (r: seq<Check>)
    ensures |r| == |items|
  {
    if items == [] then [] else [CheckedSource(items[0])] + Details(items[1..])
  }

  function Omissions(ref: Ref, items: seq<string>): (r: seq<Change>)
    ensures |r| == |items|
  {
    if items == [] then [] else [Omission(ref, items[0])] + Omissions(ref, items[1..])
  }

  /** The answer's own packet is not a source unless it declares sources or dependencies. */
  predicate Exempt(p: Packet, result: bool) {
    result && p.sources == [] && p.dependencies == []
  }

  function Changes(w: World, ref: Ref, result: bool): seq<Change> {
    if ref !in w.packets then [Unresolved(ref)]
    else
      var p := w.packets[ref];
      if p.nested.Some? then []
      else if p.command && p.recorded != [] then BrokenReads(w, p, p.recorded)
      else if Exempt(p, result) then []
      else Omissions(ref, p.omissions)
  }

  function Checks(w: World, ref: Ref, result: bool): seq<Check> {
    if ref !in w.packets then []
    else
      var p := w.packets[ref];
      if p.nested.Some? then []
      else if p.command && p.recorded != [] then ReadChecks(p.recorded)
      else if Exempt(p, result) then []
      else Details(p.sources) + Details(p.dependencies)
  }

  /** What one packet reports: that it did not resolve, a recorded read that is not valid or not
      equal to the file any more, or, for packets without recorded reads, what its source lists
      leave out; a packet that points to another one reports nothing, and neither does the
      answer's own packet if it declares no source and no dependency. */
  ghost predicate Reports(w: World, x: Ref, answer: bool, c: Change) {
    if x !in w.packets then c == Unresolved(x)
    else
      var p := w.packets[x];
      && p.nested == None
      && if p.command && p.recorded != [] then ReportsRead(w, p, c)
         else !(answer && p.sources == [] && p.dependencies == []) && ReportsOmission(x, p, c)
  }

  ghost predicate ReportsRead(w: World, p: Packet, c: Change) {
    exists r :: r in p.recorded && c == ReadChanged(r.path) && Stale(w, p, r)
  }

  ghost predicate ReportsOmission(x: Ref, p: Packet, c: Change) {
    exists d :: d in p.omissions && c == Omission(x, d)
  }

  ghost predicate Stale(w: World, p: Packet, r: Read) {
    !p.completed || !r.provable || r.digest == "" || w.hash(r.path) != Some(r.digest)
  }

  /** What one packet proves to have been checked. */
  ghost predicate Proves(w: World, x: Ref, c: Check) {
    && x in w.packets && w.packets[x].nested == None
    && if w.packets[x].command && w.packets[x].recorded != []
       then exists r :: r in w.packets[x].recorded && c == CheckedRead(r.path)
       else exists d :: (d in w.packets[x].sources || d in w.packets[x].dependencies) && c == CheckedSource(d)
  }

  lemma {:induction false} BrokenAre(w: World, p: Packet, items: seq<Read>, c: Change)
    ensures c in BrokenReads(w, p, items) <==> exists r :: r in items && c == ReadChanged(r.path) && Stale(w, p, r)
    decreases |items|
  {
    if items != [] {
      BrokenAre(w, p, items[1..], c);
      assert Holds(w, p, items[0]) <==> !Stale(w, p, items[0]);
      hide Holds, Stale;
      assert forall r :: r in items <==> r == items[0] || r in items[1..];
    }
  }

  lemma {:induction false} ReadsChecked(items: seq<Read>, c: Check)
    ensures c in ReadChecks(items) <==> exists r :: r in items && c == CheckedRead(r.path)
    decreases |items|
  {
    if items != [] {
      ReadsChecked(items[1..], c);
      assert forall r :: r in items <==> r == items[0] || r in items[1..];
    }
  }

  lemma {:induction false} DetailsAre(items: seq<string>, c: Check)
    ensures c in Details(items) <==> exists d :: d in items && c == CheckedSource(d)
    decreases |items|
  {
    if items != [] {
      DetailsAre(items[1..], c);
      assert forall d :: d in items <==> d == items[0] || d in items[1..];
    }
  }

  lemma {:induction false} OmissionsAre(ref: Ref, items: seq<string>, c: Change)
    ensures c in Omissions(ref, items) <==> exists d :: d in items && c == Omission(ref, d)
    decreases |items|
  {
    if items != [] {
      OmissionsAre(ref, items[1..], c);
      assert forall d :: d in items <==> d == items[0] || d in items[1..];
    }
  }

  lemma ChangesAre(w: World, x: Ref, answer: bool, c: Change)
    ensures c in Changes(w, x, answer) <==> Reports(w, x, answer, c)
  {
    hide BrokenReads, Omissions, Stale;
    if x in w.packets {
      BrokenAre(w, w.packets[x], w.packets[x].recorded, c);
      OmissionsAre(x, w.packets[x].omissions, c);
    }
  }

  lemma ChecksAre(w: World, x: Ref, answer: bool, c: Check)
    ensures c in Checks(w, x, answer) <==> Proves(w, x, c)
  {
    hide ReadChecks, Details;
    if x in w.packets {
      ReadsChecked(w.packets[x].recorded, c);
      DetailsAre(w.packets[x].sources, c);
      DetailsAre(w.packets[x].dependencies, c);
      NoDetails();
    }
  }

  lemma NoDetails()
    ensures Details([]) == []
  {
  }

  // ----- the packet graph ----------------------------------------------------------

  function Successors(w: World, ref: Ref): seq<Ref> {
    if ref !in w.packets then []
    else w.packets[ref].parents + (if w.packets[ref].nested.Some? then [w.packets[ref].nested.value] else [])
  }

  /** A packet rests on its parents and on the packet it points to. */
  ghost predicate Leads(w: World, from: Ref, to: Ref) {
    from in w.packets && (to in w.packets[from].parents || w.packets[from].nested == Some(to))
  }

  lemma SuccessorsAre(w: World, ref: Ref)
    ensures forall y :: y in Successors(w, ref) <==> Leads(w, ref, y)
  {
  }

  ghost predicate Reaches(w: World, from: Ref, to: Ref, n: nat)
    decreases n
  {
    from == to || (n > 0 && exists next :: Leads(w, from, next) && Reaches(w, next, to, n - 1))
  }

  ghost predicate ReachesSome(w: World, from: Ref, to: Ref) {
    exists n: nat :: Reaches(w, from, to, n)
  }

  ghost predicate Reachable(w: World, roots: seq<Ref>, to: Ref) {
    exists r :: r in roots && ReachesSome(w, r, to)
  }

  lemma ReachesStep(w: World, from: Ref, next: Ref, to: Ref)
    requires Leads(w, from, next) && ReachesSome(w, next, to)
    ensures ReachesSome(w, from, to)
  {
    var n: nat :| Reaches(w, next, to, n);
    assert Reaches(w, from, to, n + 1);
  }

  lemma ReachesItself(w: World, ref: Ref)
    ensures ReachesSome(w, ref, ref)
  {
    assert Reaches(w, ref, ref, 0);
  }

  /** A set that holds a packet and every packet's successors holds all that it reaches. */
  ghost predicate Closed(w: World, seen: set<Ref>) {
    forall x, y :: x in seen && Leads(w, x, y) ==> y in seen
  }

  lemma {:induction false} ClosedHoldsReachable(w: World, seen: set<Ref>, from: Ref, to: Ref, n: nat)
    requires Closed(w, seen) && from in seen && Reaches(w, from, to, n)
    ensures to in seen
    decreases n
  {
    if from != to {
      var next :| Leads(w, from, next) && Reaches(w, next, to, n - 1);
      ClosedHoldsReachable(w, seen, next, to, n - 1);
    }
  }

  // ----- the walk ------------------------------------------------------------------

  /** What is known so far: the packets seen, what they reported, and what was checked. */
  datatype Tables = Tables(seen: set<Ref>, changes: set<Change>, checks: set<Check>)

  const NOTHING := Tables({}, {}, {})

  /** Some packet of these reports the change; `flagged` is visited as the answer itself. */
  ghost predicate Reported(w: World, packets: set<Ref>, flagged: set<Ref>, c: Change) {
    exists x :: x in packets && Reports(w, x, x in flagged, c)
  }

  ghost predicate Proved(w: World, packets: set<Ref>, c: Check) {
    exists x :: x in packets && Proves(w, x, c)
  }

  /** What a visit has done: every newly seen packet has all its successors seen, and exactly what
      these packets report and prove was added; `open` is not finished yet. */
  ghost predicate Visited(w: World, a: Tables, b: Tables, flagged: set<Ref>, open: set<Ref>) {
    && a.seen <= b.seen
    && (forall x, y :: x in b.seen - a.seen - open && Leads(w, x, y) ==> y in b.seen)
    && (forall c :: c in b.changes <==> c in a.changes || Reported(w, b.seen - a.seen - open, flagged, c))
    && (forall c :: c in b.checks <==> c in a.checks || Proved(w, b.seen - a.seen - open, c))
  }

  /** Two groups of packets report what either of them reports. */
  lemma BothReport(w: World, one: set<Ref>, other: set<Ref>, all: set<Ref>, flagged: set<Ref>, alike: set<Ref>)
    requires all == one + other && forall x :: x in other ==> (x in alike <==> x in flagged)
    ensures forall c :: Reported(w, all, flagged, c) <==> Reported(w, one, flagged, c) || Reported(w, other, alike, c)
    ensures forall c :: Proved(w, all, c) <==> Proved(w, one, c) || Proved(w, other, c)
  {
    hide Reports, Proves;
    forall c
      ensures Reported(w, all, flagged, c) <==> Reported(w, one, flagged, c) || Reported(w, other, alike, c)
    {
      if x :| x in all && Reports(w, x, x in flagged, c) {
        assert x in one || (x in other && Reports(w, x, x in alike, c));
      }
      if x :| x in other && Reports(w, x, x in alike, c) {
        assert x in all && Reports(w, x, x in flagged, c);
      }
    }
    forall c
      ensures Proved(w, all, c) <==> Proved(w, one, c) || Proved(w, other, c)
    {
      if x :| x in all && Proves(w, x, c) {
        assert x in one || x in other;
      }
    }
  }

  lemma NobodyReports(w: World, flagged: set<Ref>)
    ensures forall c :: !Reported(w, {}, flagged, c)
    ensures forall c :: !Proved(w, {}, c)
  {
  }

  lemma VisitOpens(w: World, a: Tables, flagged: set<Ref>, ref: Ref)
    requires ref !in a.seen
    ensures Visited(w, a, a.(seen := a.seen + {ref}), flagged, {ref})
  {
    hide Leads, Reported, Proved;
    NobodyReports(w, flagged);
    assert a.seen + {ref} - a.seen - {ref} == {};
  }

  lemma VisitGoesOn(w: World, a: Tables, b: Tables, c: Tables, flagged: set<Ref>, ref: Ref)
    requires Visited(w, a, b, flagged, {ref}) && Visited(w, b, c, {}, {}) && ref in b.seen && flagged <= {ref}
    ensures Visited(w, a, c, flagged, {ref})
  {
    hide Leads, Reported, Proved;
    var one, other, all := b.seen - a.seen - {ref}, c.seen - b.seen - {}, c.seen - a.seen - {ref};
    assert all == one + other;
    BothReport(w, one, other, all, flagged, {});
  }

  lemma VisitCloses(w: World, a: Tables, b: Tables, c: Tables, flagged: set<Ref>, ref: Ref)
    requires Visited(w, a, b, flagged, {ref}) && ref in b.seen && ref !in a.seen
    requires c.seen == b.seen && (forall y :: Leads(w, ref, y) ==> y in c.seen)
    requires forall x :: x in c.changes <==> x in b.changes || Reports(w, ref, ref in flagged, x)
    requires forall x :: x in c.checks <==> x in b.checks || Proves(w, ref, x)
    ensures Visited(w, a, c, flagged, {})
  {
    OnlyThisReports(w, ref, flagged);
    hide Leads, Reported, Proved, Reports, Proves;
    var one, all := b.seen - a.seen - {ref}, c.seen - a.seen - {};
    assert all == one + {ref};
    BothReport(w, one, {ref}, all, flagged, flagged);
  }

  lemma OnlyThisReports(w: World, ref: Ref, flagged: set<Ref>)
    ensures forall c :: Reported(w, {ref}, flagged, c) <==> Reports(w, ref, ref in flagged, c)
    ensures forall c :: Proved(w, {ref}, c) <==> Proves(w, ref, c)
  {
    hide Reports, Proves;
    assert ref in {ref};
  }

  lemma VisitsInTurn(w: World, a: Tables, b: Tables, c: Tables)
    requires Visited(w, a, b, {}, {}) && Visited(w, b, c, {}, {})
    ensures Visited(w, a, c, {}, {})
  {
    hide Leads, Reported, Proved;
    var one, other, all := b.seen - a.seen - {}, c.seen - b.seen - {}, c.seen - a.seen - {};
    assert all == one + other;
    BothReport(w, one, other, all, {}, {});
  }

  lemma SeenAlready(w: World, a: Tables, flagged: set<Ref>)
    ensures Visited(w, a, a, flagged, {})
  {
    hide Leads, Reported, Proved;
    NobodyReports(w, flagged);
    assert a.seen - a.seen - {} == {};
  }

  lemma UnresolvedContributes(w: World, ref: Ref, result: bool)
    requires ref !in w.packets
    ensures forall c :: Reports(w, ref, result, c) <==> c == Unresolved(ref)
    ensures forall c :: !Proves(w, ref, c)
    ensures forall y :: !Leads(w, ref, y)
  {
  }

  /** What the successors' visits added is reached through them. */
  lemma ReachesThrough(w: World, ref: Ref, next: seq<Ref>, before: set<Ref>, after: set<Ref>)
    requires (forall y :: y in next <==> Leads(w, ref, y)) && ReachesSome(w, ref, ref)
    requires forall x :: x in after - before - {ref} ==> Reachable(w, next, x)
    ensures forall x :: x in after - before ==> ReachesSome(w, ref, x)
  {
    hide Leads, ReachesSome;
    forall x | x in after - before
      ensures ReachesSome(w, ref, x)
    {
      if x != ref {
        assert x in after - before - {ref} && Reachable(w, next, x);
        var r :| r in next && ReachesSome(w, r, x);
        ReachesStep(w, ref, r, x);
      }
    }
  }

  lemma AlsoReachable(w: World, refs: seq<Ref>, k: int, before: set<Ref>, middle: set<Ref>, after: set<Ref>)
    requires 0 <= k < |refs| && forall x :: x in middle - before ==> Reachable(w, refs, x)
    requires forall x :: x in after - middle ==> ReachesSome(w, refs[k], x)
    ensures forall x :: x in after - before ==> Reachable(w, refs, x)
  {
    hide ReachesSome;
    assert refs[k] in refs;
  }

  class Walk {
    const w: World
    var seen: set<Ref>
    var changed: seq<Change>
    var checked: seq<Check>

    function View(): Tables
      reads this
    {
      Tables(seen, SetOf(changed), SetOf(checked))
    }

    constructor (w: World)
      ensures this.w == w && seen == {} && changed == [] && checked == []
    {
      this.w := w;
      seen, changed, checked := {}, [], [];
    }

    /** Depth first, each packet once; cycles and shared packets end at `seen`. */
    method Visit(ref: Ref, result: bool)
      modifies this`seen, this`changed, this`checked
      ensures ref in seen && old(seen) <= seen
      ensures ref in old(seen) ==> seen == old(seen) && changed == old(changed) && checked == old(checked)
      ensures Visited(w, old(View()), View(), if result then {ref} else {}, {})
      ensures forall x :: x in seen - old(seen) ==> ReachesSome(w, ref, x)
      decreases |w.packets.Keys - seen|, 0
    {
      hide Visited, ReachesSome, Changes, Checks, Successors, Reports, Proves, Leads;
      ghost var before := View();
      ghost var flagged: set<Ref> := if result then {ref} else {};
      if ref in seen {
        SeenAlready(w, before, flagged);
        return;
      }
      ReachesItself(w, ref);
      VisitOpens(w, before, flagged, ref);
      seen := seen + {ref};
      if ref !in w.packets {
        ghost var entered := View();
        changed := changed + [Unresolved(ref)];
        UnresolvedContributes(w, ref, ref in flagged);
        VisitCloses(w, before, entered, View(), flagged, ref);
        return;
      }
      Shrinks(w.packets.Keys, before.seen, ref);
      ghost var entry := View();
      var next := Successors(w, ref);
      SuccessorsAre(w, ref);
      VisitAll(next);
      VisitGoesOn(w, before, entry, View(), flagged, ref);
      ReachesThrough(w, ref, next, before.seen, seen);
      ghost var visited := View();
      Judge(ref, result);
      VisitCloses(w, before, visited, View(), flagged, ref);
    }

    /** Visit several packets in turn: all of them are seen, and what is newly seen is what
        they reach. */
    method VisitAll(refs: seq<Ref>)
      modifies this`seen, this`changed, this`checked
      ensures old(seen) <= seen && forall r :: r in refs ==> r in seen
      ensures Visited(w, old(View()), View(), {}, {})
      ensures forall x :: x in seen - old(seen) ==> Reachable(w, refs, x)
      decreases |w.packets.Keys - seen|, 1
    {
      hide Visited, ReachesSome;
      ghost var before := View();
      SeenAlready(w, before, {});
      for k := 0 to |refs|
        invariant before.seen <= seen && forall j :: 0 <= j < k ==> refs[j] in seen
        invariant Visited(w, before, View(), {}, {})
        invariant forall x :: x in seen - before.seen ==> Reachable(w, refs, x)
      {
        ghost var middle := View();
        SmallerStill(w.packets.Keys, before.seen, seen);
        Visit(refs[k], false);
        VisitsInTurn(w, before, middle, View());
        AlsoReachable(w, refs, k, before.seen, middle.seen, seen);
      }
    }

    /** Add what one resolved packet itself contributes. */
    method Judge(ref: Ref, result: bool)
      requires ref in w.packets
      modifies this`changed, this`checked
      ensures changed == old(changed) + Changes(w, ref, result) && checked == old(checked) + Checks(w, ref, result)
      ensures forall c :: c in changed <==> c in old(changed) || Reports(w, ref, result, c)
      ensures forall c :: c in checked <==> c in old(checked) || Proves(w, ref, c)
    {
      hide BrokenReads, ReadChecks, Omissions, Details, Reports, Proves;
      forall c
        ensures c in Changes(w, ref, result) <==> Reports(w, ref, result, c)
      {
        ChangesAre(w, ref, result, c);
      }
      forall c
        ensures c in Checks(w, ref, result) <==> Proves(w, ref, c)
      {
        ChecksAre(w, ref, result, c);
      }
      var p := w.packets[ref];
      if p.nested.None? {
        if p.command && p.recorded != [] {
          CheckReads(p);
        } else if !Exempt(p, result) {
          checked := checked + (Details(p.sources) + Details(p.dependencies));
          changed := changed + Omissions(ref, p.omissions);
        }
      }
    }

    /** Compare each recorded read with the file as it is now. */
    method CheckReads(p: Packet)
      modifies this`changed, this`checked
      ensures changed == old(changed) + BrokenReads(w, p, p.recorded)
      ensures checked == old(checked) + ReadChecks(p.recorded)
    {
      assert p.recorded[0..] == p.recorded;
      for k := 0 to |p.recorded|
        invariant changed + BrokenReads(w, p, p.recorded[k..]) == old(changed) + BrokenReads(w, p, p.recorded)
        invariant checked + ReadChecks(p.recorded[k..]) == old(checked) + ReadChecks(p.recorded)
      {
        var read := p.recorded[k];
        assert p.recorded[k..][0] == read && p.recorded[k..][1..] == p.recorded[k + 1..];
        ghost var rest, restChecks := BrokenReads(w, p, p.recorded[k + 1..]), ReadChecks(p.recorded[k + 1..]);
        checked := checked + [CheckedRead(read.path)];
        assert checked + restChecks == (checked[..|checked| - 1] + ([CheckedRead(read.path)] + restChecks));
        var actual := if p.completed && read.provable then w.hash(read.path) else None;
        if actual.None? || actual.value == "" || actual.value != read.digest {
          assert changed + ([ReadChanged(read.path)] + rest) == (changed + [ReadChanged(read.path)]) + rest;
          changed := changed + [ReadChanged(read.path)];
        } else {
          assert [] + rest == rest;
        }
      }
    }
  }

  lemma Shrinks(all: set<Ref>, seen: set<Ref>, ref: Ref)
    requires ref in all && ref !in seen
    ensures |all - (seen + {ref})| < |all - seen|
  {
    assert all - seen == (all - (seen + {ref})) + {ref};
  }

  lemma SmallerStill(all: set<Ref>, a: set<Ref>, b: set<Ref>)
    requires a <= b
    ensures |all - b| <= |all - a|
  {
    assert all - a == (all - b) + ((all - a) * b);
  }

  // ----- the verdict ---------------------------------------------------------------

  /** A finished job, and what the skill-selection tail adds (empty for other modes). */
  datatype Job = Job(
    citations: seq<Ref>, hints: seq<Ref>, evidence: seq<Ref>, result: Option<Ref>,
    tailChanges: seq<string>, tailChecks: seq<string>)

  /** What the answer rests on: the accepted citations, or else everything it was given. */
  function Roots(job: Job): seq<Ref> {
    Dedup(if job.citations != [] then job.citations else job.hints + job.evidence)
  }

  function AllRoots(job: Job): seq<Ref> {
    Roots(job) + (if job.citations == [] && job.result.Some? then [job.result.value] else [])
  }

  /** The packets that were cited, or else everything the job was given or observed. */
  ghost predicate Given(job: Job, r: Ref) {
    if job.citations != [] then r in job.citations else r in job.hints || r in job.evidence
  }

  /** What the answer rests on: all that these lead to, and without citations its own packet and
      all that this leads to. */
  ghost predicate RestsOn(w: World, job: Job, x: Ref) {
    exists r :: (Given(job, r) || (job.citations == [] && job.result == Some(r))) && ReachesSome(w, r, x)
  }

  /** The answer's own packet is exempt only if nothing else leads to it. */
  ghost predicate IsFlagged(w: World, job: Job, x: Ref) {
    job.citations == [] && job.result == Some(x) && !exists r :: Given(job, r) && ReachesSome(w, r, x)
  }

  lemma RootsAreGiven(job: Job)
    ensures forall r :: r in Roots(job) <==> Given(job, r)
    ensures forall r :: r in AllRoots(job) <==> Given(job, r) || (job.citations == [] && job.result == Some(r))
  {
  }

  lemma RestsOnIs(w: World, job: Job)
    ensures forall x :: Reachable(w, AllRoots(job), x) <==> RestsOn(w, job, x)
    ensures forall x :: Reachable(w, Roots(job), x) <==> exists r :: Given(job, r) && ReachesSome(w, r, x)
  {
    RootsAreGiven(job);
    hide Roots, AllRoots, ReachesSome, Given;
  }

  /** Something the answer rests on reports this change. */
  ghost predicate TheyReport(w: World, job: Job, c: Change) {
    exists x :: RestsOn(w, job, x) && Reports(w, x, IsFlagged(w, job, x), c)
  }

  ghost predicate TheyProve(w: World, job: Job, c: Check) {
    exists x :: RestsOn(w, job, x) && Proves(w, x, c)
  }

  lemma {:induction false} SeenIsReachable(w: World, roots: seq<Ref>, seen: set<Ref>)
    requires Closed(w, seen) && (forall r :: r in roots ==> r in seen)
    requires forall x :: x in seen ==> Reachable(w, roots, x)
    ensures forall x :: x in seen <==> Reachable(w, roots, x)
  {
    forall x | Reachable(w, roots, x)
      ensures x in seen
    {
      var r :| r in roots && ReachesSome(w, r, x);
      var n: nat :| Reaches(w, r, x, n);
      ClosedHoldsReachable(w, seen, r, x, n);
    }
  }

  /** The tables hold exactly what the answer rests on, and what that reports and proves. */
  ghost predicate Complete(w: World, job: Job, t: Tables) {
    && (forall x :: x in t.seen <==> RestsOn(w, job, x))
    && (forall c :: c in t.changes <==> TheyReport(w, job, c))
    && (forall c :: c in t.checks <==> TheyProve(w, job, c))
  }

  /** What the seen packets report, each as the flag says. */
  lemma SeenReport(w: World, job: Job, t: Tables, flagged: set<Ref>)
    requires forall x :: x in t.seen <==> RestsOn(w, job, x)
    requires forall x :: x in t.seen ==> (x in flagged <==> IsFlagged(w, job, x))
    requires forall c :: c in t.changes <==> Reported(w, t.seen, flagged, c)
    requires forall c :: c in t.checks <==> Proved(w, t.seen, c)
    ensures Complete(w, job, t)
  {
    hide RestsOn, IsFlagged, Reports, Proves;
    forall c
      ensures Reported(w, t.seen, flagged, c) <==> TheyReport(w, job, c)
    {
      if x :| x in t.seen && Reports(w, x, x in flagged, c) {
        assert RestsOn(w, job, x) && Reports(w, x, IsFlagged(w, job, x), c);
      }
      if x :| RestsOn(w, job, x) && Reports(w, x, IsFlagged(w, job, x), c) {
        assert x in t.seen && Reports(w, x, x in flagged, c);
      }
    }
    forall c
      ensures Proved(w, t.seen, c) <==> TheyProve(w, job, c)
    {
    }
  }

  lemma RootsOnly(w: World, job: Job, t: Tables)
    requires Visited(w, NOTHING, t, {}, {}) && (forall r :: r in Roots(job) ==> r in t.seen)
    requires (forall x :: x in t.seen ==> Reachable(w, Roots(job), x)) && (job.citations != [] || job.result.None?)
    ensures Complete(w, job, t)
  {
    hide Leads, Reports, Proves, Reported, Proved, ReachesSome, Roots, Complete;
    assert AllRoots(job) == Roots(job) by { assert Roots(job) + [] == Roots(job); }
    assert t.seen - {} - {} == t.seen;
    assert Closed(w, t.seen);
    SeenIsReachable(w, AllRoots(job), t.seen);
    RestsOnIs(w, job);
    hide Visited, Reachable, RestsOn;
    assert forall x :: !IsFlagged(w, job, x);
    assert forall c :: c in t.changes <==> Reported(w, t.seen, {}, c) by { FromNothing(w, t); }
    assert forall c :: c in t.checks <==> Proved(w, t.seen, c) by { FromNothing(w, t); }
    hide IsFlagged;
    SeenReport(w, job, t, {});
  }

  lemma FromNothing(w: World, t: Tables)
    requires Visited(w, NOTHING, t, {}, {})
    ensures forall c :: c in t.changes <==> Reported(w, t.seen, {}, c)
    ensures forall c :: c in t.checks <==> Proved(w, t.seen, c)
  {
    hide Leads, Reported, Proved;
    assert t.seen - {} - {} == t.seen;
  }

  /** First the roots, then the answer's own packet: `t` and `u` are the tables after each. */
  ghost predicate RootsAndResult(w: World, job: Job, t: Tables, u: Tables) {
    && job.citations == [] && job.result.Some?
    && Visited(w, NOTHING, t, {}, {}) && (forall r :: r in Roots(job) ==> r in t.seen)
    && (forall x :: x in t.seen ==> Reachable(w, Roots(job), x))
    && Visited(w, t, u, {job.result.value}, {}) && job.result.value in u.seen
    && (forall x :: x in u.seen - t.seen ==> ReachesSome(w, job.result.value, x))
  }

  lemma VisitedIsClosed(w: World, a: Tables, b: Tables, flagged: set<Ref>)
    requires Visited(w, a, b, flagged, {}) && Closed(w, a.seen)
    ensures Closed(w, b.seen) && a.seen <= b.seen
  {
    hide Successors, Changes, Checks;
    assert forall x :: x in b.seen ==> x in a.seen || x in b.seen - a.seen - {};
  }

  lemma RootsKnown(w: World, job: Job, t: Tables)
    requires Visited(w, NOTHING, t, {}, {}) && (forall r :: r in Roots(job) ==> r in t.seen)
    requires forall x :: x in t.seen ==> Reachable(w, Roots(job), x)
    ensures Closed(w, t.seen) && forall x :: x in t.seen <==> Reachable(w, Roots(job), x)
  {
    hide Visited, Reachable, Roots;
    VisitedIsClosed(w, NOTHING, t, {});
    SeenIsReachable(w, Roots(job), t.seen);
  }

  lemma ResultSeenIsReachable(w: World, job: Job, t: Tables, u: Tables)
    requires RootsAndResult(w, job, t, u)
    ensures forall x :: x in t.seen <==> Reachable(w, Roots(job), x)
    ensures forall x :: x in u.seen <==> Reachable(w, AllRoots(job), x)
    ensures t.seen <= u.seen
  {
    hide Visited, ReachesSome, Roots, Closed;
    var result := job.result.value;
    RootsKnown(w, job, t);
    VisitedIsClosed(w, t, u, {result});
    assert AllRoots(job) == Roots(job) + [result];
    forall x | x in u.seen
      ensures Reachable(w, AllRoots(job), x)
    {
      if x in t.seen {
        var r :| r in Roots(job) && ReachesSome(w, r, x);
        assert r in AllRoots(job);
      } else {
        assert result in AllRoots(job);
      }
    }
    hide Reachable;
    SeenIsReachable(w, AllRoots(job), u.seen);
  }

  lemma RootsThenResult(w: World, job: Job, t: Tables, u: Tables)
    requires RootsAndResult(w, job, t, u)
    ensures Complete(w, job, u)
  {
    OnlyResultFlagged(w, job, t, u) by { hide Visited; }
    var result := job.result.value;
    hide Reachable, ReachesSome, Roots, AllRoots, RestsOn, IsFlagged, Complete, Reports, Proves, Reported, Proved,
      Leads;
    FromNothing(w, t);
    assert u.seen - t.seen - {} == u.seen - t.seen;
    assert u.seen == t.seen + (u.seen - t.seen);
    BothReport(w, t.seen, u.seen - t.seen, u.seen, {result} - t.seen, {result});
    TogetherReport(w, t.seen, {result} - t.seen);
    SeenReport(w, job, u, {result} - t.seen);
  }

  lemma OnlyResultFlagged(w: World, job: Job, t: Tables, u: Tables)
    requires RootsAndResult(w, job, t, u)
    ensures t.seen <= u.seen && forall x :: x in u.seen <==> RestsOn(w, job, x)
    ensures forall x :: x in u.seen ==> (x in {job.result.value} - t.seen <==> IsFlagged(w, job, x))
  {
    ResultSeenIsReachable(w, job, t, u);
    RestsOnIs(w, job);
    hide Visited, ReachesSome, RestsOn, Given, Reachable, Roots, AllRoots;
  }

  /** Packets report the same under flags that agree on them. */
  lemma TogetherReport(w: World, packets: set<Ref>, flagged: set<Ref>)
    requires packets !! flagged
    ensures forall c :: Reported(w, packets, flagged, c) <==> Reported(w, packets, {}, c)
  {
    hide Reports;
    forall x | x in packets
      ensures x in flagged <==> x in {}
    {
    }
  }

  /** Why an answer is not fresh: what something it rests on reports, a missing result, a cited
      answer whose own packet does not resolve, a missing selection proof, or nothing that was
      checked at all. */
  ghost predicate ReasonToRefresh(w: World, job: Job, c: Change) {
    || TheyReport(w, job, c)
    || (job.result.None? && c == ResultMissing)
    || (job.citations != [] && job.result.Some? && job.result.value !in w.packets && c == Unresolved(job.result.value))
    || (exists d :: d in job.tailChanges && c == SelectionProofMissing(d))
    || (c == ManifestMissing && job.tailChecks == [] && forall k :: !TheyProve(w, job, k))
  }

  lemma TailIs(items: seq<string>, c: Change)
    ensures c in Tail(items) <==> exists d :: d in items && c == SelectionProofMissing(d)
  {
    if items != [] {
      TailIs(items[1..], c);
      assert forall d :: d in items <==> d == items[0] || d in items[1..];
    }
  }

  /** Visit every root, judge the answer's own packet, and conclude. */
  method Evaluate(w: World, job: Job) returns (isFresh: bool, seen: set<Ref>, changed: seq<Change>, checked: seq<Check>)
    ensures forall x :: x in seen <==> RestsOn(w, job, x)
    ensures forall c :: c in changed <==> ReasonToRefresh(w, job, c)
    ensures forall k :: k in checked <==>
      TheyProve(w, job, k) || exists d :: d in job.tailChecks && k == CheckedSource(d)
    ensures isFresh <==> forall c :: !ReasonToRefresh(w, job, c)
    ensures isFresh ==> forall x :: RestsOn(w, job, x) ==> Revalidated(w, x)
  {
    hide Visited, ReachesSome, Reachable, RestsOn, Complete, TheyReport, TheyProve, Roots, AllRoots, Revalidated,
      ReasonToRefresh, Tail, Details;
    var walk := new Walk(w);
    assert walk.View() == NOTHING;
    walk.VisitAll(Roots(job));
    ghost var visited := walk.View();
    changed, checked := walk.changed, walk.checked;
    if job.result.None? {
      changed := changed + [ResultMissing];
      RootsOnly(w, job, visited);
    } else if job.citations != [] {
      if job.result.value !in w.packets {
        changed := changed + [Unresolved(job.result.value)];
      }
      RootsOnly(w, job, visited);
    } else {
      walk.Visit(job.result.value, true);
      changed, checked := walk.changed, walk.checked;
      RootsThenResult(w, job, visited, walk.View());
    }
    seen := walk.seen;
    ghost var known := walk.View();
    changed := changed + Tail(job.tailChanges);
    checked := checked + Details(job.tailChecks);
    ghost var sofar := changed;
    if checked == [] {
      changed := changed + [ManifestMissing];
    }
    isFresh := changed == [];
    Concluded(w, job, known, sofar, changed, checked);
    if isFresh {
      CleanMeansRevalidated(w, job);
    }
  }

  /** The tables, the tail and the last test make exactly the reasons to refresh. */
  lemma Concluded(w: World, job: Job, t: Tables, sofar: seq<Change>, changed: seq<Change>, checked: seq<Check>)
    requires Complete(w, job, t)
    requires forall c :: c in sofar <==>
      || c in t.changes || c in Tail(job.tailChanges)
      || (job.result.None? && c == ResultMissing)
      || (job.citations != [] && job.result.Some? && job.result.value !in w.packets
        && c == Unresolved(job.result.value))
    requires forall k :: k in checked <==> k in t.checks || k in Details(job.tailChecks)
    requires changed == if checked == [] then sofar + [ManifestMissing] else sofar
    ensures forall x :: x in t.seen <==> RestsOn(w, job, x)
    ensures forall c :: c in changed <==> ReasonToRefresh(w, job, c)
    ensures forall k :: k in checked <==>
      TheyProve(w, job, k) || exists d :: d in job.tailChecks && k == CheckedSource(d)
    ensures changed == [] <==> forall c :: !ReasonToRefresh(w, job, c)
  {
    hide RestsOn, TheyReport, TheyProve, Tail, Details;
    forall c
      ensures c in Tail(job.tailChanges) <==> exists d :: d in job.tailChanges && c == SelectionProofMissing(d)
    {
      TailIs(job.tailChanges, c);
    }
    forall k
      ensures k in Details(job.tailChecks) <==> exists d :: d in job.tailChecks && k == CheckedSource(d)
    {
      DetailsAre(job.tailChecks, k);
    }
    hide Complete;
    NothingChecked(w, job, t, checked);
    forall c
      ensures c in changed <==> ReasonToRefresh(w, job, c)
    {
      assert c in t.changes <==> TheyReport(w, job, c) by { ChangesOf(w, job, t); }
    }
    assert (forall x :: x in t.seen <==> RestsOn(w, job, x)) && (forall k :: k in t.checks <==>
      TheyProve(w, job, k)) by {
      ChangesOf(w, job, t);
    }
    hide ReasonToRefresh;
    if changed != [] {
      assert changed[0] in changed;
    }
  }

  lemma ChangesOf(w: World, job: Job, t: Tables)
    requires Complete(w, job, t)
    ensures forall x :: x in t.seen <==> RestsOn(w, job, x)
    ensures forall c :: c in t.changes <==> TheyReport(w, job, c)
    ensures forall c :: c in t.checks <==> TheyProve(w, job, c)
  {
    hide RestsOn, TheyReport, TheyProve;
  }

  lemma NothingChecked(w: World, job: Job, t: Tables, checked: seq<Check>)
    requires Complete(w, job, t)
    requires forall k :: k in checked <==> k in t.checks || exists d :: d in job.tailChecks && k == CheckedSource(d)
    ensures checked == [] <==> job.tailChecks == [] && forall k :: !TheyProve(w, job, k)
  {
    hide RestsOn, TheyReport, TheyProve;
    if job.tailChecks != [] {
      assert CheckedSource(job.tailChecks[0]) in checked;
    }
    if checked == [] {
      forall k
        ensures !TheyProve(w, job, k)
      {
        assert k !in checked;
      }
    } else {
      assert checked[0] in checked;
    }
  }

  /** The packet resolved, and if it is a command packet that does not just point to another
      one, every read it recorded is valid and equals the file as it is now. */
  ghost predicate Revalidated(w: World, x: Ref) {
    && x in w.packets
    && (w.packets[x].nested.None? && w.packets[x].command ==>
          forall r :: r in w.packets[x].recorded ==>
            w.packets[x].completed && r.provable && w.hash(r.path) == Some(r.digest))
  }

  lemma CleanMeansRevalidated(w: World, job: Job)
    requires forall c :: !ReasonToRefresh(w, job, c)
    ensures forall x :: RestsOn(w, job, x) ==> Revalidated(w, x)
  {
    hide IsFlagged, RestsOn, TheyProve;
    forall x | RestsOn(w, job, x)
      ensures Revalidated(w, x)
    {
      forall c
        ensures !Reports(w, x, IsFlagged(w, job, x), c)
      {
        assert !ReasonToRefresh(w, job, c);
        assert !TheyReport(w, job, c);
      }
      hide ReasonToRefresh;
      SilentMeansRevalidated(w, x, IsFlagged(w, job, x));
    }
  }

  function Tail(items: seq<string>): (r: seq<Change>)
    ensures |r| == |items|
  {
    if items == [] then [] else [SelectionProofMissing(items[0])] + Tail(items[1..])
  }

  // ----- what a fresh verdict means ------------------------------------------------

  /** A packet that reports nothing is resolved, and unless it only points to another packet, a
      command packet's reads are all valid and equal to the files as they are. */
  lemma SilentMeansRevalidated(w: World, x: Ref, answer: bool)
    requires forall c :: !Reports(w, x, answer, c)
    ensures Revalidated(w, x)
  {
    assert x !in w.packets ==> Reports(w, x, answer, Unresolved(x));
    if x in w.packets && w.packets[x].nested.None? && w.packets[x].command {
      var p := w.packets[x];
      forall r | r in p.recorded
        ensures !Stale(w, p, r)
      {
        assert !Reports(w, x, answer, ReadChanged(r.path));
      }
    }
  }
}
