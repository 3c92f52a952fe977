/** Fitting a worker's private request into its byte budget without changing the durable
    log: oversize payloads are marked, and the oldest optional entries are left out. */
module Projection {
  import opened Prelude

  const WORKER_OBSERVATION_MAX_BYTES: int := 32768
  const WORKER_JOB_INPUT_MAX_BYTES: int := 256 * 1024
  const KEY_BYTES: nat := 15   // {"packet_id": }

  /** One observation of the request: not a dict at all, or a dict with what may be its id,
      its payload, and the tool call kept with it. `Marker` is the over-budget payload. */
  datatype Payload = Payload(text: string) | Marker
  datatype Entry = Malformed(raw: string) | Entry(id: Option<string>, payload: Payload, call: Option<string>)

  /** The JSON encoder and the skill rule: sizes are additive over list elements, and an
      entry that carries an id is larger than the id alone. */
  datatype Rules = Rules(
    entryBytes: Entry -> nat, idBytes: string -> nat, baseBytes: nat,
    required: Entry -> bool)

  ghost predicate Encodes(rules: Rules) {
    forall e: Entry :: e.Entry? && e.id.Some? ==> rules.entryBytes(e) >= rules.idBytes(e.id.value) + KEY_BYTES
  }

  datatype Request = Request(observations: seq<Entry>, omitted: seq<string>)

  /** A broker observation's id: a non-empty string. */
  predicate Identified(e: Entry) {
    e.Entry? && e.id.Some? && e.id.value != ""
  }

  function Sum(sizes: seq<nat>): nat {
    if sizes == [] then 0 else sizes[0] + Sum(sizes[1..])
  }

  /** Brackets, elements and separators of a JSON list. */
  function ListBytes(sizes: seq<nat>): nat {
    2 + Sum(sizes) + (if |sizes| > 0 then 2 * (|sizes| - 1) else 0)
  }

  function EntrySizes(rules: Rules, entries: seq<Entry>): (r: seq<nat>)
    ensures |r| == |entries|
  {
    if entries == [] then [] else [rules.entryBytes(entries[0])] + EntrySizes(rules, entries[1..])
  }

  function IdSizes(rules: Rules, ids: seq<string>): (r: seq<nat>)
    ensures |r| == |ids|
  {
    if ids == [] then [] else [rules.idBytes(ids[0])] + IdSizes(rules, ids[1..])
  }

  function Bytes(rules: Rules, r: Request): nat {
    rules.baseBytes + ListBytes(EntrySizes(rules, r.observations)) + ListBytes(IdSizes(rules, r.omitted))
  }

  predicate Fits(rules: Rules, r: Request) {
    Bytes(rules, r) <= WORKER_JOB_INPUT_MAX_BYTES
  }

  // ----- normalizing entries -------------------------------------------------------

  function WithCall(e: Entry, calls: map<string, string>): Entry
    requires Identified(e)
  {
    e.(call := if e.id.value in calls then Some(calls[e.id.value]) else None)
  }

  /** An entry whose body must not be replaced does not fit. */
  predicate Oversize(rules: Rules, e: Entry, calls: map<string, string>) {
    Identified(e) && rules.required(e) && rules.entryBytes(WithCall(e, calls)) > WORKER_OBSERVATION_MAX_BYTES
  }

  function Normal(rules: Rules, e: Entry, calls: map<string, string>): Entry {
    if !Identified(e) then e
    else if rules.entryBytes(WithCall(e, calls)) <= WORKER_OBSERVATION_MAX_BYTES then WithCall(e, calls)
    else
      var marker := Entry.Entry(e.id, Marker, None);
      if e.id.value in calls && rules.entryBytes(WithCall(marker, calls)) <= WORKER_OBSERVATION_MAX_BYTES
      then WithCall(marker, calls) else marker
  }

  function NormalAll(rules: Rules, entries: seq<Entry>, calls: map<string, string>): (r: seq<Entry>)
    ensures |r| == |entries|
    ensures forall i :: 0 <= i < |entries| ==> r[i] == Normal(rules, entries[i], calls)
  {
    seq(|entries|, (i: int) requires 0 <= i < |entries| => Normal(rules, entries[i], calls))
  }

  /** Ids of the entries that must keep their bodies. */
  function Protected(rules: Rules, entries: seq<Entry>): set<string> {
    set e | e in entries && Identified(e) && rules.required(e) :: e.id.value
  }

  predicate Removable(e: Entry, protected: set<string>) {
    e.Malformed? || e.id.None? || e.id.value !in protected
  }

  // ----- evicting ------------------------------------------------------------------

  /** What stays and what goes when the first `k` removable entries are left out. */
  function Kept(entries: seq<Entry>, protected: set<string>, k: nat): seq<Entry> {
    if entries == [] then []
    else if k > 0 && Removable(entries[0], protected) then Kept(entries[1..], protected, k - 1)
    else [entries[0]] + Kept(entries[1..], protected, k)
  }

  function Evicted(entries: seq<Entry>, protected: set<string>, k: nat): seq<Entry> {
    if entries == [] || k == 0 then []
    else if Removable(entries[0], protected) then [entries[0]] + Evicted(entries[1..], protected, k - 1)
    else Evicted(entries[1..], protected, k)
  }

  function RemovableCount(entries: seq<Entry>, protected: set<string>): nat {
    if entries == [] then 0
    else (if Removable(entries[0], protected) then 1 else 0) + RemovableCount(entries[1..], protected)
  }

  function Ids(entries: seq<Entry>): seq<string> {
    if entries == [] then []
    else (if entries[0].Entry? && entries[0].id.Some? then [entries[0].id.value] else []) + Ids(entries[1..])
  }

  function Candidate(entries: seq<Entry>, protected: set<string>, previously: seq<string>, k: nat): Request {
    Request(Kept(entries, protected, k), previously + Ids(Evicted(entries, protected, k)))
  }

  /** The earlier projection's omissions, unless the list is not made of non-empty ids. */
  function Previously(omitted: seq<string>): (r: seq<string>)
    ensures "" !in r
  {
    if "" in omitted then [] else omitted
  }

  // ----- the projection ------------------------------------------------------------

  /** The request after the fewest evictions that make it fit. */
  ghost predicate FirstFit(rules: Rules, entries: seq<Entry>, protected: set<string>, previously: seq<string>,
                           r: Request, k: nat) {
    && k <= RemovableCount(entries, protected) && r == Candidate(entries, protected, previously, k) && Fits(rules, r)
    && forall j: nat :: j < k ==> !Fits(rules, Candidate(entries, protected, previously, j))
  }

  ghost predicate NothingFits(rules: Rules, entries: seq<Entry>, protected: set<string>, previously: seq<string>) {
    forall k: nat :: k <= RemovableCount(entries, protected) ==>
      !Fits(rules, Candidate(entries, protected, previously, k))
  }

  /** The request with every optional entry left out. */
  function MandatoryOnly(rules: Rules, request: Request, calls: map<string, string>): Request {
    var entries, protected := NormalAll(rules, request.observations, calls), Protected(rules, request.observations);
    Candidate(entries, protected, Previously(request.omitted), RemovableCount(entries, protected))
  }

  // ----- the same, one position at a time ------------------------------------------

  /** The entry with the call kept for its id, if there is one. */
  ghost function Whole(e: Entry, calls: map<string, string>): Entry
    requires e.Entry? && e.id.Some?
  {
    Entry.Entry(e.id, e.payload, if e.id.value in calls then Some(calls[e.id.value]) else None)
  }

  ghost predicate TooLarge(rules: Rules, e: Entry, calls: map<string, string>) {
    e.Entry? && e.id.Some? && e.id.value != "" && rules.entryBytes(Whole(e, calls)) > 32768
  }

  /** What an entry becomes: what has no id stays, what fits keeps its body, and what does not
      becomes a marker, with its call if that fits. */
  ghost function Shown(rules: Rules, e: Entry, calls: map<string, string>): Entry {
    if e.Malformed? || e.id in {None, Some("")} then e
    else if !TooLarge(rules, e, calls) then Whole(e, calls)
    else
      var marked := Whole(e.(payload := Marker), calls);
      if rules.entryBytes(marked) <= 32768 then marked else marked.(call := None)
  }

  /** Nothing with this entry's id is required. */
  ghost predicate Optional(rules: Rules, observations: seq<Entry>, e: Entry) {
    forall f :: f in observations && f.Entry? && f.id.Some? && f.id.value != "" && rules.required(f) ==>
      e.Malformed? || e.id != f.id
  }

  ghost function OptionalBefore(rules: Rules, observations: seq<Entry>, n: int): int
    requires 0 <= n <= |observations|
  {
    if n == 0 then 0
    else OptionalBefore(rules, observations, n - 1) + (if Optional(rules, observations, observations[n - 1]) then 1
      else 0)
  }

  /** One of the first `k` optional entries. */
  ghost predicate LeftOut(rules: Rules, observations: seq<Entry>, k: int, i: int)
    requires 0 <= i < |observations|
  {
    Optional(rules, observations, observations[i]) && OptionalBefore(rules, observations, i) < k
  }

  ghost function Remaining(rules: Rules, observations: seq<Entry>, calls: map<string, string>, k: int,
                           n: int): seq<Entry>
    requires 0 <= n <= |observations|
  {
    if n == 0 then []
    else
      var earlier := Remaining(rules, observations, calls, k, n - 1);
      if LeftOut(rules, observations, k, n - 1) then earlier else earlier + [Shown(rules, observations[n - 1], calls)]
  }

  ghost function NamesLeftOut(rules: Rules, observations: seq<Entry>, k: int, n: int): seq<string>
    requires 0 <= n <= |observations|
  {
    if n == 0 then []
    else
      var earlier, e := NamesLeftOut(rules, observations, k, n - 1), observations[n - 1];
      if LeftOut(rules, observations, k, n - 1) && e.Entry? && e.id.Some? then earlier + [e.id.value] else earlier
  }

  /** The omissions listed before, unless one of them is empty. */
  ghost function Usable(omitted: seq<string>): seq<string> {
    if exists i :: 0 <= i < |omitted| && omitted[i] == "" then [] else omitted
  }

  /** The request with its first `k` optional entries left out, and their names listed. */
  ghost function Without(rules: Rules, request: Request, calls: map<string, string>, k: int): Request {
    var n := |request.observations|;
    Request(Remaining(rules, request.observations, calls, k, n),
            Usable(request.omitted) + NamesLeftOut(rules, request.observations, k, n))
  }

  ghost predicate Small(rules: Rules, r: Request) {
    Bytes(rules, r) <= 262144
  }

  /** The fewest optional entries are left out that make the request small enough. */
  ghost predicate Least(rules: Rules, request: Request, calls: map<string, string>, r: Request, k: int) {
    && 0 <= k <= OptionalBefore(rules, request.observations, |request.observations|)
    && r == Without(rules, request, calls, k) && Small(rules, r)
    && forall j :: 0 <= j < k ==> !Small(rules, Without(rules, request, calls, j))
  }

  ghost predicate NeverSmall(rules: Rules, request: Request, calls: map<string, string>) {
    forall k :: 0 <= k <= OptionalBefore(rules, request.observations, |request.observations|) ==>
      !Small(rules, Without(rules, request, calls, k))
  }

  lemma NormalIsShown(rules: Rules, e: Entry, calls: map<string, string>)
    ensures Normal(rules, e, calls) == Shown(rules, e, calls)
    ensures Oversize(rules, e, calls) <==> TooLarge(rules, e, calls) && rules.required(e)
    ensures Shown(rules, e, calls).Entry? <==> e.Entry?
    ensures e.Entry? ==> Shown(rules, e, calls).id == e.id
  {
  }

  lemma RemovableIsOptional(rules: Rules, observations: seq<Entry>, e: Entry, shown: Entry)
    requires shown.Entry? <==> e.Entry?
    requires e.Entry? ==> shown.id == e.id
    ensures Removable(shown, Protected(rules, observations)) <==> Optional(rules, observations, e)
  {
    if e.Entry? && e.id.Some? && e.id.value in Protected(rules, observations) {
      var f :| f in observations && Identified(f) && rules.required(f) && f.id.value == e.id.value;
      assert f.Entry? && f.id == e.id;
    }
  }

  /** One more entry at the end. */
  lemma {:induction false} EvictionEnds(entries: seq<Entry>, protected: set<string>, e: Entry, k: nat)
    ensures RemovableCount(entries + [e], protected) ==
      RemovableCount(entries, protected) + (if Removable(e, protected) then 1 else 0)
    ensures var out := Removable(e, protected) && RemovableCount(entries, protected) < k;
      && Kept(entries + [e], protected, k) == Kept(entries, protected, k) + (if out then [] else [e])
      && Evicted(entries + [e], protected, k) == Evicted(entries, protected, k) + (if out then [e] else [])
    decreases |entries|
  {
    hide Removable, Kept, Evicted, RemovableCount;
    if entries == [] {
      assert [] + [e] == [e] && [e][1..] == [];
      OneEntry(e, protected, k);
    } else {
      assert (entries + [e])[1..] == entries[1..] + [e];
      if Removable(entries[0], protected) {
        if k > 0 {
          EvictionEnds(entries[1..], protected, e, k - 1);
          RemovableHead(entries, protected, k);
          RemovableHead(entries + [e], protected, k);
        } else {
          EvictionEnds(entries[1..], protected, e, 0);
          RemovableHead(entries, protected, 1);
          RemovableHead(entries + [e], protected, 1);
          KeptAll(entries, protected);
          KeptAll(entries + [e], protected);
        }
      } else {
        EvictionEnds(entries[1..], protected, e, k);
        MandatoryHead(entries, protected, k);
        MandatoryHead(entries + [e], protected, k);
      }
    }
  }

  lemma OneEntry(e: Entry, protected: set<string>, k: nat)
    ensures RemovableCount([], protected) == 0
      && RemovableCount([e], protected) == if Removable(e, protected) then 1 else 0
    ensures var out := Removable(e, protected) && 0 < k;
      && Kept([], protected, k) == [] && Evicted([], protected, k) == []
      && Kept([e], protected, k) == (if out then [] else [e]) && Evicted([e], protected, k) == (if out then [e] else [])
  {
    hide Removable;
    assert [e][1..] == [];
  }

  lemma {:induction false} RemainingIs(rules: Rules, observations: seq<Entry>, calls: map<string, string>, k: nat,
                                       n: int)
    requires 0 <= n <= |observations|
    ensures var entries, protected := NormalAll(rules, observations, calls)[..n], Protected(rules, observations);
      && RemovableCount(entries, protected) == OptionalBefore(rules, observations, n)
      && Kept(entries, protected, k) == Remaining(rules, observations, calls, k, n)
      && Ids(Evicted(entries, protected, k)) == NamesLeftOut(rules, observations, k, n)
    decreases n
  {
    var all, protected := NormalAll(rules, observations, calls), Protected(rules, observations);
    if n == 0 {
      assert all[..0] == [];
      hide Shown, Optional, Removable, Protected;
    } else {
      var e, shown := observations[n - 1], Shown(rules, observations[n - 1], calls);
      NormalIsShown(rules, e, calls);
      RemovableIsOptional(rules, observations, e, shown);
      assert all[..n] == all[..n - 1] + [shown];
      hide Shown, Optional, Removable, Protected, Kept, Evicted, RemovableCount, Ids, Normal, NormalAll;
      RemainingIs(rules, observations, calls, k, n - 1);
      EvictionEnds(all[..n - 1], protected, shown, k);
      IdsConcat(Evicted(all[..n - 1], protected, k), [shown]);
      IdsConcat(Evicted(all[..n - 1], protected, k), []);
      OneId(shown);
    }
  }

  lemma OneId(e: Entry)
    ensures Ids([]) == [] && Ids([e]) == if e.Entry? && e.id.Some? then [e.id.value] else []
  {
    assert [e][1..] == [];
  }

  lemma CandidateIs(rules: Rules, request: Request, calls: map<string, string>, k: nat)
    ensures var entries, protected := NormalAll(rules, request.observations, calls),
      Protected(rules, request.observations);
      && RemovableCount(entries, protected) == OptionalBefore(rules, request.observations, |request.observations|)
      && Candidate(entries, protected, Previously(request.omitted), k) == Without(rules, request, calls, k)
  {
    var n := |request.observations|;
    assert NormalAll(rules, request.observations, calls)[..n] == NormalAll(rules, request.observations, calls);
    RemainingIs(rules, request.observations, calls, k, n);
    assert Previously(request.omitted) == Usable(request.omitted);
    hide Usable, Previously, Kept, Evicted, Ids, Remaining, NamesLeftOut, RemovableCount, OptionalBefore, NormalAll,
      Protected;
  }

  /** Both forms of the choice are the same. */
  lemma LeastIs(rules: Rules, request: Request, calls: map<string, string>)
    ensures var entries, protected := NormalAll(rules, request.observations, calls),
      Protected(rules, request.observations);
      var previously := Previously(request.omitted);
      && (NothingFits(rules, entries, protected, previously) <==> NeverSmall(rules, request, calls))
      && (forall r, k: nat :: FirstFit(rules, entries, protected, previously, r, k) ==>
           Least(rules, request, calls, r, k))
      && (Fits(rules, Request([], previously)) <==> Small(rules, Request([], Usable(request.omitted))))
  {
    forall k: nat
      ensures var entries, protected := NormalAll(rules, request.observations, calls),
        Protected(rules, request.observations);
        && RemovableCount(entries, protected) == OptionalBefore(rules, request.observations, |request.observations|)
        && Candidate(entries, protected, Previously(request.omitted), k) == Without(rules, request, calls, k)
    {
      CandidateIs(rules, request, calls, k);
    }
    CandidateIs(rules, request, calls, 0);
    assert Previously(request.omitted) == Usable(request.omitted);
    hide Usable, Previously, Candidate, Without, RemovableCount, OptionalBefore, NormalAll, Protected, Bytes;
  }

  /** Normalize every entry and collect the protected ids, unless a body that must be kept
      does not fit. */
  method Normalize(rules: Rules, observations: seq<Entry>, calls: map<string, string>)
    returns (normalized: seq<Entry>, protected: set<string>, fits: bool)
    ensures !fits <==> exists e :: e in observations && Oversize(rules, e, calls)
    ensures fits ==> normalized == NormalAll(rules, observations, calls) && protected == Protected(rules, observations)
  {
    hide Oversize, Normal;
    normalized, protected := [], {};
    for i := 0 to |observations|
      invariant normalized == NormalAll(rules, observations, calls)[..i]
      invariant protected == Protected(rules, observations[..i])
      invariant forall j :: 0 <= j < i ==> !Oversize(rules, observations[j], calls)
    {
      var e := observations[i];
      assert observations[..i + 1] == observations[..i] + [e];
      if Identified(e) && rules.required(e) {
        protected := protected + {e.id.value};
      }
      if Oversize(rules, e, calls) {
        assert e in observations;
        return normalized, protected, false;
      }
      normalized := normalized + [Normal(rules, e, calls)];
    }
    assert observations[..|observations|] == observations;
    assert NormalAll(rules, observations, calls)[..|observations|] == NormalAll(rules, observations, calls);
    fits := true;
  }

  /** Normalize, then leave out the oldest optional entry until the request fits. */
  method Project(rules: Rules, request: Request, calls: map<string, string>) returns (r: Option<Request>)
    ensures r.None? <==>
      || (exists e :: e in request.observations && TooLarge(rules, e, calls) && rules.required(e))
      || !Small(rules, Request([], Usable(request.omitted))) || NeverSmall(rules, request, calls)
    ensures r.Some? ==> exists k :: Least(rules, request, calls, r.value, k)
    ensures r.None? <==>
      || (exists e :: e in request.observations && Oversize(rules, e, calls))
      || !Fits(rules, Request([], Previously(request.omitted)))
      || NothingFits(rules, NormalAll(rules, request.observations, calls), Protected(rules, request.observations),
        Previously(request.omitted))
    ensures r.Some? ==> exists k: nat ::
      FirstFit(rules, NormalAll(rules, request.observations, calls), Protected(rules, request.observations),
        Previously(request.omitted), r.value, k)
    ensures Encodes(rules) ==> (r.None? <==>
      || (exists e :: e in request.observations && Oversize(rules, e, calls))
      || !Fits(rules, Request([], Previously(request.omitted)))
      || !Fits(rules, MandatoryOnly(rules, request, calls)))
  {
    LeastIs(rules, request, calls);
    forall e
      ensures Oversize(rules, e, calls) <==> TooLarge(rules, e, calls) && rules.required(e)
    {
      NormalIsShown(rules, e, calls);
    }
    hide Oversize, Fits, NothingFits, FirstFit, Previously, Protected, NormalAll, Encodes, Candidate, RemovableCount,
      TooLarge, Small, Usable, NeverSmall, Least;
    var entries, protected, fits := Normalize(rules, request.observations, calls);
    if !fits {
      return None;
    }
    var previously := Previously(request.omitted);
    if !Fits(rules, Request([], previously)) {
      return None;
    }
    r := Evict(rules, entries, protected, previously);
    if Encodes(rules) {
      NothingFitsIff(rules, entries, protected, previously);
    }
    if r.Some? {
      ghost var k: nat :| FirstFit(rules, entries, protected, previously, r.value, k);
      FirstFitFits(rules, entries, protected, previously, r.value, k);
    }
  }

  lemma FirstFitFits(rules: Rules, entries: seq<Entry>, protected: set<string>, previously: seq<string>, r: Request,
                     k: nat)
    requires FirstFit(rules, entries, protected, previously, r, k)
    ensures !NothingFits(rules, entries, protected, previously)
  {
    hide Fits, Candidate;
  }

  /** Pop the first removable entry from what is retained and append it to what is dropped,
      until the request fits or only mandatory entries are left. */
  method Evict(rules: Rules, entries: seq<Entry>, protected: set<string>, previously: seq<string>)
    returns (r: Option<Request>)
    ensures r.None? <==> NothingFits(rules, entries, protected, previously)
    ensures r.Some? ==> exists k: nat :: FirstFit(rules, entries, protected, previously, r.value, k)
  {
    hide Fits, Kept, Evicted, RemovableCount, Ids, Removable;
    var retained, dropped := entries, [];
    ghost var k: nat := 0;
    KeptAll(entries, protected);
    while true
      invariant k <= RemovableCount(entries, protected)
      invariant retained == Kept(entries, protected, k) && dropped == Evicted(entries, protected, k)
      invariant forall j: nat :: j < k ==> !Fits(rules, Candidate(entries, protected, previously, j))
      decreases RemovableCount(entries, protected) - k
    {
      var projected := Request(retained, previously + Ids(dropped));
      if Fits(rules, projected) {
        assert FirstFit(rules, entries, protected, previously, projected, k);
        FirstFitFits(rules, entries, protected, previously, projected, k);
        return Some(projected);
      }
      var at := 0;
      while at < |retained| && !Removable(retained[at], protected)
        invariant 0 <= at <= |retained|
        invariant forall j :: 0 <= j < at ==> !Removable(retained[j], protected)
      {
        at := at + 1;
      }
      EvictNext(entries, protected, k, at);
      if at == |retained| {
        return None;
      }
      dropped, retained := dropped + [retained[at]], retained[..at] + retained[at + 1..];
      k := k + 1;
    }
  }

  lemma KeptAll(entries: seq<Entry>, protected: set<string>)
    ensures Kept(entries, protected, 0) == entries && Evicted(entries, protected, 0) == []
  {
    if entries != [] {
      KeptAll(entries[1..], protected);
      assert entries == [entries[0]] + entries[1..];
    }
  }

  /** The first removable entry among those that stay. */
  ghost predicate FirstLeft(kept: seq<Entry>, protected: set<string>, at: int) {
    && 0 <= at <= |kept| && (forall j :: 0 <= j < at ==> !Removable(kept[j], protected))
    && (at < |kept| ==> Removable(kept[at], protected))
  }

  /** Removing the first removable entry that is left is one more eviction; there is one
      exactly while fewer than all were evicted. */
  lemma {:induction false} EvictNext(entries: seq<Entry>, protected: set<string>, k: nat, at: int)
    requires k <= RemovableCount(entries, protected) && FirstLeft(Kept(entries, protected, k), protected, at)
    ensures var kept := Kept(entries, protected, k);
      && (at == |kept| <==> k == RemovableCount(entries, protected))
      && (at < |kept| ==>
            && Kept(entries, protected, k + 1) == kept[..at] + kept[at + 1..]
            && Evicted(entries, protected, k + 1) == Evicted(entries, protected, k) + [kept[at]])
    decreases |entries|, 1
  {
    hide Removable, Kept, Evicted, RemovableCount, FirstLeft;
    if entries == [] {
      NothingLeft(protected, k, at);
    } else if !Removable(entries[0], protected) {
      EvictNextMandatory(entries, protected, k, at);
    } else if k > 0 {
      RemovableHead(entries, protected, k);
      RemovableHead(entries, protected, k + 1);
      EvictNext(entries[1..], protected, k - 1, at);
    } else {
      EvictFirst(entries, protected, at);
    }
  }

  lemma NothingLeft(protected: set<string>, k: nat, at: int)
    requires k <= RemovableCount([], protected) && FirstLeft(Kept([], protected, k), protected, at)
    ensures k == RemovableCount([], protected) && at == |Kept([], protected, k)|
  {
  }

  lemma EvictFirst(entries: seq<Entry>, protected: set<string>, at: int)
    requires entries != [] && Removable(entries[0], protected) && FirstLeft(Kept(entries, protected, 0), protected, at)
    ensures at == 0 && Kept(entries, protected, 0) == entries && RemovableCount(entries, protected) > 0
    ensures Kept(entries, protected, 1) == entries[..0] + entries[1..]
    ensures Evicted(entries, protected, 1) == Evicted(entries, protected, 0) + [entries[0]]
  {
    hide Removable;
    KeptAll(entries, protected);
    KeptAll(entries[1..], protected);
    RemovableHead(entries, protected, 1);
  }

  /** A removable head goes first. */
  lemma RemovableHead(entries: seq<Entry>, protected: set<string>, k: nat)
    requires entries != [] && Removable(entries[0], protected) && k > 0
    ensures Kept(entries, protected, k) == Kept(entries[1..], protected, k - 1)
    ensures Evicted(entries, protected, k) == [entries[0]] + Evicted(entries[1..], protected, k - 1)
    ensures RemovableCount(entries, protected) == 1 + RemovableCount(entries[1..], protected)
  {
    hide Removable;
  }

  /** A mandatory head stays whatever is evicted behind it. */
  lemma MandatoryHead(entries: seq<Entry>, protected: set<string>, k: nat)
    requires entries != [] && !Removable(entries[0], protected)
    ensures Kept(entries, protected, k) == [entries[0]] + Kept(entries[1..], protected, k)
    ensures Evicted(entries, protected, k) == Evicted(entries[1..], protected, k)
    ensures RemovableCount(entries, protected) == RemovableCount(entries[1..], protected)
  {
    hide Removable;
    assert entries[1..] == [] || k != 0 || Evicted(entries[1..], protected, k) == [];
  }

  lemma WithoutBehind(e: Entry, left: seq<Entry>, at: int)
    requires 0 < at <= |left|
    ensures ([e] + left)[..at] + ([e] + left)[at + 1..] == [e] + (left[..at - 1] + left[at..])
  {
    assert ([e] + left)[..at] == [e] + left[..at - 1];
    assert ([e] + left)[at + 1..] == left[at..];
  }

  lemma FirstLeftBehind(e: Entry, left: seq<Entry>, protected: set<string>, at: int)
    requires !Removable(e, protected) && FirstLeft([e] + left, protected, at)
    ensures at > 0 && FirstLeft(left, protected, at - 1)
  {
    hide Removable;
    var kept := [e] + left;
    assert kept[0] == e;
    assert at > 0;
    forall j | 0 <= j < at - 1
      ensures !Removable(left[j], protected)
    {
      assert left[j] == kept[j + 1];
    }
    if at < |kept| {
      assert left[at - 1] == kept[at];
    }
  }

  lemma EvictNextMandatory(entries: seq<Entry>, protected: set<string>, k: nat, at: int)
    requires entries != [] && !Removable(entries[0], protected)
    requires k <= RemovableCount(entries, protected) && FirstLeft(Kept(entries, protected, k), protected, at)
    ensures var kept := Kept(entries, protected, k);
      && (at == |kept| <==> k == RemovableCount(entries, protected))
      && (at < |kept| ==>
            && Kept(entries, protected, k + 1) == kept[..at] + kept[at + 1..]
            && Evicted(entries, protected, k + 1) == Evicted(entries, protected, k) + [kept[at]])
    decreases |entries|, 0
  {
    hide Removable, Kept, Evicted, RemovableCount, FirstLeft;
    MandatoryHead(entries, protected, k);
    MandatoryHead(entries, protected, k + 1);
    var left := Kept(entries[1..], protected, k);
    FirstLeftBehind(entries[0], left, protected, at);
    EvictNext(entries[1..], protected, k, at - 1);
    if at <= |left| {
      WithoutBehind(entries[0], left, at);
    }
  }

  // ----- what a projection keeps ---------------------------------------------------

  /** Nothing is lost: what stays and what goes is everything, mandatory entries all stay, and
      only optional ones go. */
  lemma {:induction false} EvictionSplits(entries: seq<Entry>, protected: set<string>, k: nat)
    ensures multiset(Kept(entries, protected, k)) + multiset(Evicted(entries, protected, k)) == multiset(entries)
    ensures forall e :: e in entries && !Removable(e, protected) ==> e in Kept(entries, protected, k)
    ensures forall e :: e in Evicted(entries, protected, k) ==> e in entries && Removable(e, protected)
  {
    hide Removable, Kept, Evicted;
    if k == 0 {
      KeptAll(entries, protected);
    } else if entries == [] {
      NothingToEvict(protected, k);
    } else {
      var e, rest := entries[0], entries[1..];
      assert entries == [e] + rest;
      if Removable(e, protected) {
        RemovableHead(entries, protected, k);
        EvictionSplits(rest, protected, k - 1);
      } else {
        MandatoryHead(entries, protected, k);
        EvictionSplits(rest, protected, k);
      }
    }
  }

  lemma NothingToEvict(protected: set<string>, k: nat)
    ensures Kept([], protected, k) == [] && Evicted([], protected, k) == []
  {
  }

  /** What stays keeps its order. */
  lemma {:induction false} EvictionKeepsOrder(entries: seq<Entry>, protected: set<string>, k: nat)
    ensures Subsequence(Kept(entries, protected, k), entries)
  {
    hide Removable;
    if entries != [] {
      var e, rest := entries[0], entries[1..];
      if k > 0 && Removable(e, protected) {
        EvictionKeepsOrder(rest, protected, k - 1);
      } else {
        EvictionKeepsOrder(rest, protected, k);
        assert Kept(entries, protected, k)[1..] == Kept(rest, protected, k);
      }
    }
  }

  ghost predicate Subsequence(a: seq<Entry>, b: seq<Entry>)
    decreases |b|
  {
    if a == [] then true
    else if b == [] then false
    else (a[0] == b[0] && Subsequence(a[1..], b[1..])) || Subsequence(a, b[1..])
  }

  /** A mandatory entry that fits keeps its exact payload. */
  lemma MandatoryKeepsBody(rules: Rules, e: Entry, calls: map<string, string>)
    requires Identified(e) && rules.required(e) && !Oversize(rules, e, calls)
    ensures Normal(rules, e, calls).payload == e.payload && Normal(rules, e, calls).id == e.id
  {
  }

  lemma SumConcat(a: seq<nat>, b: seq<nat>)
    ensures Sum(a + b) == Sum(a) + Sum(b)
  {
    if a == [] {
      assert a + b == b;
    } else {
      assert (a + b)[1..] == a[1..] + b;
      SumConcat(a[1..], b);
    }
  }

  lemma EntrySizesConcat(rules: Rules, a: seq<Entry>, b: seq<Entry>)
    ensures EntrySizes(rules, a + b) == EntrySizes(rules, a) + EntrySizes(rules, b)
  {
    if a == [] {
      assert a + b == b;
    } else {
      assert (a + b)[1..] == a[1..] + b;
      EntrySizesConcat(rules, a[1..], b);
    }
  }

  lemma IdSizesConcat(rules: Rules, a: seq<string>, b: seq<string>)
    ensures IdSizes(rules, a + b) == IdSizes(rules, a) + IdSizes(rules, b)
  {
    if a == [] {
      assert a + b == b;
    } else {
      assert (a + b)[1..] == a[1..] + b;
      IdSizesConcat(rules, a[1..], b);
    }
  }

  lemma IdsConcat(a: seq<Entry>, b: seq<Entry>)
    ensures Ids(a + b) == Ids(a) + Ids(b)
  {
    if a == [] {
      assert a + b == b;
    } else {
      assert (a + b)[1..] == a[1..] + b;
      IdsConcat(a[1..], b);
    }
  }

  lemma ListBytesConcat(a: seq<nat>, x: nat, c: seq<nat>)
    ensures ListBytes(a + c) + x <= ListBytes(a + ([x] + c))
    ensures ListBytes(a + [x]) == ListBytes(a) + x + if a == [] then 0 else 2
  {
    SumConcat(a, [x] + c);
    SumConcat([x], c);
    SumConcat(a, c);
    SumConcat(a, [x]);
    assert Sum([x]) == x;
  }

  /** The request's size: two empty lists, and for every element its own size and a separator
      before all but the first. */
  lemma RequestBytes(rules: Rules, r: Request, e: Entry, i: string)
    ensures Bytes(rules, Request([], [])) == rules.baseBytes + 4
    ensures Bytes(rules, r.(observations := r.observations + [e])) ==
      Bytes(rules, r) + rules.entryBytes(e) + if r.observations == [] then 0 else 2
    ensures Bytes(rules, r.(omitted := r.omitted + [i])) ==
      Bytes(rules, r) + rules.idBytes(i) + if r.omitted == [] then 0 else 2
  {
    EntrySizesConcat(rules, r.observations, [e]);
    IdSizesConcat(rules, r.omitted, [i]);
    assert EntrySizes(rules, [e]) == [rules.entryBytes(e)] && IdSizes(rules, [i]) == [rules.idBytes(i)];
    ListBytesConcat(EntrySizes(rules, r.observations), rules.entryBytes(e), []);
    ListBytesConcat(IdSizes(rules, r.omitted), rules.idBytes(i), []);
  }

  lemma KeptShrinks(rules: Rules, kept: seq<Entry>, at: int)
    requires 0 <= at < |kept|
    ensures ListBytes(EntrySizes(rules,
      kept[..at] + kept[at + 1..])) + rules.entryBytes(kept[at]) <= ListBytes(EntrySizes(rules, kept))
  {
    var e := kept[at];
    assert kept == kept[..at] + ([e] + kept[at + 1..]);
    EntrySizesConcat(rules, kept[..at], [e] + kept[at + 1..]);
    EntrySizesConcat(rules, [e], kept[at + 1..]);
    EntrySizesConcat(rules, kept[..at], kept[at + 1..]);
    assert EntrySizes(rules, [e]) == [rules.entryBytes(e)];
    hide EntrySizes, ListBytes;
    ListBytesConcat(EntrySizes(rules, kept[..at]), rules.entryBytes(e), EntrySizes(rules, kept[at + 1..]));
  }

  lemma OmittedGrows(rules: Rules, previously: seq<string>, out: seq<Entry>, e: Entry)
    requires Encodes(rules)
    ensures ListBytes(IdSizes(rules, previously + Ids(out + [e]))) <= ListBytes(IdSizes(rules,
      previously + Ids(out))) + rules.entryBytes(e)
  {
    IdsConcat(out, [e]);
    assert previously + (Ids(out) + Ids([e])) == (previously + Ids(out)) + Ids([e]);
    IdSizesConcat(rules, previously + Ids(out), Ids([e]));
    var sizes := IdSizes(rules, previously + Ids(out));
    if e.Entry? && e.id.Some? {
      assert Ids([e]) == [e.id.value] && IdSizes(rules, [e.id.value]) == [rules.idBytes(e.id.value)];
      hide IdSizes, Ids, ListBytes;
      ListBytesConcat(sizes, rules.idBytes(e.id.value), []);
    } else {
      assert Ids([e]) == [] && IdSizes(rules, []) == [];
      assert sizes + [] == sizes;
    }
  }

  /** Leaving out one more entry never makes the request larger. */
  lemma EvictionShrinks(rules: Rules, entries: seq<Entry>, protected: set<string>, previously: seq<string>, k: nat)
    requires Encodes(rules) && k < RemovableCount(entries, protected)
    ensures Bytes(rules, Candidate(entries, protected, previously, k + 1)) <= Bytes(rules,
      Candidate(entries, protected, previously, k))
  {
    hide Kept, Evicted, Removable, EntrySizes, IdSizes, Ids, ListBytes, RemovableCount;
    var kept := Kept(entries, protected, k);
    var at := FirstRemovable(kept, protected, 0);
    EvictNext(entries, protected, k, at);
    KeptShrinks(rules, kept, at);
    OmittedGrows(rules, previously, Evicted(entries, protected, k), kept[at]);
  }

  function FirstRemovable(entries: seq<Entry>, protected: set<string>, from: nat): (at: nat)
    requires from <= |entries| && forall j :: 0 <= j < from ==> !Removable(entries[j], protected)
    ensures at <= |entries| && forall j :: 0 <= j < at ==> !Removable(entries[j], protected)
    ensures at < |entries| ==> Removable(entries[at], protected)
    decreases |entries| - from
  {
    if from == |entries| || Removable(entries[from], protected) then from
      else FirstRemovable(entries, protected, from + 1)
  }

  /** If the mandatory entries alone do not fit, no eviction count does. */
  lemma {:induction false} MandatoryFailsThenAll(rules: Rules, entries: seq<Entry>, protected: set<string>,
                                                 previously: seq<string>, k: nat)
    requires Encodes(rules) && k <= RemovableCount(entries, protected)
    requires !Fits(rules, Candidate(entries, protected, previously, RemovableCount(entries, protected)))
    ensures !Fits(rules, Candidate(entries, protected, previously, k))
    decreases RemovableCount(entries, protected) - k
  {
    if k < RemovableCount(entries, protected) {
      EvictionShrinks(rules, entries, protected, previously, k);
      MandatoryFailsThenAll(rules, entries, protected, previously, k + 1);
    }
  }

  /** So the loop gives up exactly when the mandatory entries alone do not fit. */
  lemma NothingFitsIff(rules: Rules, entries: seq<Entry>, protected: set<string>, previously: seq<string>)
    requires Encodes(rules)
    ensures NothingFits(rules, entries, protected, previously) <==>
      !Fits(rules, Candidate(entries, protected, previously, RemovableCount(entries, protected)))
  {
    hide Fits, Candidate, RemovableCount;
    if !Fits(rules, Candidate(entries, protected, previously, RemovableCount(entries, protected))) {
      forall k: nat | k <= RemovableCount(entries, protected)
        ensures !Fits(rules, Candidate(entries, protected, previously, k))
      {
        MandatoryFailsThenAll(rules, entries, protected, previously, k);
      }
    }
  }

  lemma {:induction false} AllEvictedLeavesMandatory(entries: seq<Entry>, protected: set<string>)
    ensures forall e :: e in Kept(entries, protected, RemovableCount(entries, protected)) ==> !Removable(e, protected)
  {
    if entries != [] {
      AllEvictedLeavesMandatory(entries[1..], protected);
    }
  }

  // ----- projecting twice ----------------------------------------------------------

  /** The packets a request still tells the worker about. */
  function Identities(r: Request): set<string> {
    (set e | e in r.observations && Identified(e) :: e.id.value) + (set i | i in r.omitted && i != "")
  }

  lemma IdsMember(entries: seq<Entry>, i: string)
    ensures i in Ids(entries) <==> exists e :: e in entries && e.Entry? && e.id == Some(i)
  {
    if entries != [] {
      IdsMember(entries[1..], i);
      assert forall e :: e in entries <==> e == entries[0] || e in entries[1..];
    }
  }

  lemma NormalKeepsIds(rules: Rules, entries: seq<Entry>, calls: map<string, string>, i: string)
    requires i != ""
    ensures (exists e :: e in NormalAll(rules, entries, calls) && e.Entry? && e.id == Some(i)) <==>
      (exists e :: e in entries && e.Entry? && e.id == Some(i))
  {
    var normal := NormalAll(rules, entries, calls);
    if e :| e in entries && e.Entry? && e.id == Some(i) {
      var k :| 0 <= k < |entries| && entries[k] == e;
      assert normal[k] == Normal(rules, e, calls) && normal[k] in normal;
    }
    if e :| e in normal && e.Entry? && e.id == Some(i) {
      var k :| 0 <= k < |normal| && normal[k] == e;
      assert entries[k] in entries && entries[k].Entry? && entries[k].id == Some(i);
    }
  }

  /** What one projection's result tells the worker about: every identified observation, and
      what was omitted before if that list was usable. */
  lemma ProjectionIdentities(rules: Rules, request: Request, calls: map<string, string>, k: nat)
    ensures var r := Candidate(NormalAll(rules, request.observations, calls), Protected(rules, request.observations),
                               Previously(request.omitted), k);
      Identities(r) == Identities(request.(omitted := Previously(request.omitted)))
  {
    var entries, protected := NormalAll(rules, request.observations, calls), Protected(rules, request.observations);
    var kept, out := Kept(entries, protected, k), Evicted(entries, protected, k);
    var previously := Previously(request.omitted);
    var r := Candidate(entries, protected, previously, k);
    var whole := request.(omitted := previously);
    EvictionSplits(entries, protected, k);
    assert forall e :: e in entries <==> e in kept || e in out by {
      assert forall e :: e in entries <==> e in multiset(entries);
    }
    forall i
      ensures i in Identities(r) <==> i in Identities(whole)
    {
      if i != "" {
        NormalKeepsIds(rules, request.observations, calls, i);
        IdsMember(out, i);
        assert i in Identities(r) <==>
          (exists e :: e in kept && e.Entry? && e.id == Some(i)) || i in previously || i in Ids(out);
        assert i in Identities(whole) <==>
          (exists e :: e in request.observations && e.Entry? && e.id == Some(i)) || i in previously;
      }
    }
  }

  /** What a returned request is: within the cap, in the input's order, with every mandatory
      entry whole, and with every identity retained or listed as omitted. */
  lemma ProjectedRequest(rules: Rules, request: Request, calls: map<string, string>, r: Request, k: nat)
    requires FirstFit(rules, NormalAll(rules, request.observations, calls), Protected(rules, request.observations),
                      Previously(request.omitted), r, k)
    requires forall e :: e in request.observations ==> !Oversize(rules, e, calls)
    ensures Bytes(rules, r) <= WORKER_JOB_INPUT_MAX_BYTES
    ensures Subsequence(r.observations, NormalAll(rules, request.observations, calls))
    ensures forall e :: e in request.observations && Identified(e) && rules.required(e) ==>
      WithCall(e, calls) in r.observations
    ensures Identities(r) == Identities(request.(omitted := Previously(request.omitted)))
  {
    var entries, protected := NormalAll(rules, request.observations, calls), Protected(rules, request.observations);
    hide Bytes, Kept, Evicted, Subsequence, Identities, Previously, RemovableCount, Ids, NormalAll;
    EvictionKeepsOrder(entries, protected, k);
    EvictionSplits(entries, protected, k);
    ProjectionIdentities(rules, request, calls, k);
    forall e | e in request.observations && Identified(e) && rules.required(e)
      ensures WithCall(e, calls) in r.observations
    {
      var i :| 0 <= i < |request.observations| && request.observations[i] == e;
      assert entries[i] == Normal(rules, e, calls) == WithCall(e, calls);
      assert entries[i] in entries && e.id.value in protected;
      assert !Removable(entries[i], protected);
    }
  }

  /** Projecting a projection loses no identity if and only if no entry with an empty id was
      left out, or every omitted id is still among the retained entries. */
  lemma TwiceLosesNothingIff(rules: Rules, first: Request, calls: map<string, string>, k: nat)
    ensures var second := Candidate(NormalAll(rules, first.observations, calls), Protected(rules, first.observations),
                                    Previously(first.omitted), k);
      Identities(first) <= Identities(second) <==>
        ("" !in first.omitted || forall i :: i in first.omitted && i != "" ==>
          exists e :: e in first.observations && e.Entry? && e.id == Some(i))
  {
    ProjectionIdentities(rules, first, calls, k);
    var whole := first.(omitted := Previously(first.omitted));
    if "" in first.omitted {
      assert Identities(whole) == (set e | e in first.observations && Identified(e) :: e.id.value);
      if Identities(first) <= Identities(whole) {
        forall i | i in first.omitted && i != ""
          ensures exists e :: e in first.observations && e.Entry? && e.id == Some(i)
        {
          assert i in Identities(first);
          var e :| e in first.observations && Identified(e) && e.id.value == i;
        }
      } else {
        var i :| i in Identities(first) && i !in Identities(whole);
        assert i in first.omitted && i != "";
      }
    } else {
      assert whole == first;
    }
  }

  /** So a request without empty ids can be projected twice: whatever both passes leave out,
      the second result names every packet that the request does. */
  lemma NamedRequestsLoseNothing(rules: Rules, request: Request, calls: map<string, string>, first: Request, k: nat,
                                 again: nat)
    requires "" !in request.omitted && forall e :: e in request.observations && e.Entry? ==> e.id != Some("")
    requires FirstFit(rules, NormalAll(rules, request.observations, calls), Protected(rules, request.observations),
                      Previously(request.omitted), first, k)
    ensures var second := Candidate(NormalAll(rules, first.observations, calls), Protected(rules, first.observations),
                                    Previously(first.omitted), again);
      Identities(request) <= Identities(first) && Identities(first) <= Identities(second)
  {
    var entries, protected := NormalAll(rules, request.observations, calls), Protected(rules, request.observations);
    hide Identities, Candidate, Fits, Protected, RemovableCount;
    ProjectionIdentities(rules, request, calls, k);
    assert Previously(request.omitted) == request.omitted;
    assert request.(omitted := Previously(request.omitted)) == request;
    EvictedAreNamed(rules, request, calls, protected, k);
    CandidateOmits(entries, protected, request.omitted, k);
    TwiceLosesNothingIff(rules, first, calls, again);
  }

  lemma CandidateOmits(entries: seq<Entry>, protected: set<string>, previously: seq<string>, k: nat)
    ensures "" in Candidate(entries, protected, previously, k).omitted <==>
      "" in previously || "" in Ids(Evicted(entries, protected, k))
  {
  }

  lemma EvictedAreNamed(rules: Rules, request: Request, calls: map<string, string>, protected: set<string>, k: nat)
    requires forall e :: e in request.observations && e.Entry? ==> e.id != Some("")
    ensures "" !in Ids(Evicted(NormalAll(rules, request.observations, calls), protected, k))
  {
    hide Evicted, Kept, Ids, Removable;
    var entries := NormalAll(rules, request.observations, calls);
    EvictionSplits(entries, protected, k);
    IdsMember(Evicted(entries, protected, k), "");
    forall e | e in Evicted(entries, protected, k) && e.Entry?
      ensures e.id != Some("")
    {
      var i :| 0 <= i < |entries| && entries[i] == e;
      assert e == Normal(rules, request.observations[i], calls) && request.observations[i] in request.observations;
    }
  }

  lemma EvictTwo(a: Entry, b: Entry)
    ensures Kept([a, b], {}, 2) == [] && Evicted([a, b], {}, 2) == [a, b]
    ensures Kept([a, b], {}, 1) == [b] && Evicted([a, b], {}, 1) == [a]
    ensures Kept([a, b], {}, 0) == [a, b] && Evicted([a, b], {}, 0) == []
  {
    KeptAll([a, b], {});
    KeptAll([b], {});
    assert [a, b][1..] == [b] && [b][1..] == [];
    assert Kept([b], {}, 1) == Kept([], {}, 0) == [];
    assert Evicted([b], {}, 1) == [b] + Evicted([], {}, 0) == [b];
  }

  const NAMELESS := Entry.Entry(Some(""), Payload("a"), None)
  const NAMED := Entry.Entry(Some("p"), Payload("b"), None)

  /** A base just below the cap, so that no entry fits beside it. */
  function NearlyFull(): Rules {
    Rules((e: Entry) => 100, (i: string) => 1, WORKER_JOB_INPUT_MAX_BYTES - 24, (e: Entry) => false)
  }

  lemma NearlyFullBytes(r: Request)
    requires |r.observations| <= 2 && |r.omitted| <= 2
    ensures Fits(NearlyFull(), r) <==> r.observations == []
  {
    var rules := NearlyFull();
    if r.observations != [] {
      assert EntrySizes(rules, r.observations)[0] == 100;
      assert Sum(EntrySizes(rules, r.observations)) >= 100;
    } else if r.omitted != [] {
      var rest := r.omitted[1..];
      assert IdSizes(rules, r.omitted) == [1] + IdSizes(rules, rest);
      assert rest == [] || IdSizes(rules, rest) == [1] + IdSizes(rules, rest[1..]);
      assert Sum(IdSizes(rules, rest)) <= 1;
      assert IdSizes(rules, r.omitted)[1..] == IdSizes(rules, rest);
    }
  }

  /** A first pass that a second one loses: the base is almost at the cap, so an entry with
      an empty id and an ordinary one are both left out, and then the list of omitted ids is
      taken for malformed. */
  lemma TwiceCanLose()
    ensures var rules, request := NearlyFull(), Request([NAMELESS, NAMED], []);
      var entries := NormalAll(rules, request.observations, map[]);
      var first := Request([], ["", "p"]);
      && FirstFit(rules, entries, Protected(rules, request.observations), Previously(request.omitted), first, 2)
      && FirstFit(rules, NormalAll(rules, first.observations, map[]), Protected(rules, first.observations),
        Previously(first.omitted), Request([], []), 0)
      && "p" in Identities(first) && "p" !in Identities(Request([], []))
  {
    var rules := NearlyFull();
    var entries := NormalAll(rules, [NAMELESS, NAMED], map[]);
    assert entries == [NAMELESS, NAMED];
    assert Protected(rules, [NAMELESS, NAMED]) == {};
    hide NearlyFull, FirstFit, Normal, NormalAll, Protected;
    FirstPass(rules) by { NearlyFullIsRules(); }
    NearlyFullBytes(Request([], []));
    SecondPass(rules);
  }

  lemma NearlyFullIsRules()
    ensures forall r: Request :: |r.observations| <= 2 && |r.omitted| <= 2 ==>
      (Fits(NearlyFull(), r) <==> r.observations == [])
  {
    hide NearlyFull, Fits;
    forall r: Request | |r.observations| <= 2 && |r.omitted| <= 2
      ensures Fits(NearlyFull(), r) <==> r.observations == []
    {
      NearlyFullBytes(r);
    }
  }

  lemma FirstPass(rules: Rules)
    requires forall r: Request :: |r.observations| <= 2 && |r.omitted| <= 2 ==>
      (Fits(rules, r) <==> r.observations == [])
    ensures FirstFit(rules, [NAMELESS, NAMED], {}, Previously([]), Request([], ["", "p"]), 2)
  {
    hide Fits;
    EvictTwo(NAMELESS, NAMED);
    assert Ids([NAMELESS, NAMED]) == ["", "p"] && Ids([NAMELESS]) == [""] && Ids([]) == [] by {
      assert [NAMELESS, NAMED][1..] == [NAMED] && Ids([NAMED]) == ["p"] + Ids([NAMED][1..]);
    }
    assert RemovableCount([NAMELESS, NAMED], {}) == 2 by {
      assert [NAMELESS, NAMED][1..] == [NAMED];
      assert [NAMED][1..] == [];
      assert RemovableCount([NAMED], {}) == 1 + RemovableCount([], {}) == 1;
      assert RemovableCount([NAMELESS, NAMED], {}) == 1 + RemovableCount([NAMED], {});
    }
    hide Kept, Evicted, Ids, RemovableCount;
    assert Candidate([NAMELESS, NAMED], {}, [], 2) == Request([], ["", "p"]);
    assert Candidate([NAMELESS, NAMED], {}, [], 1) == Request([NAMED], [""]);
    assert Candidate([NAMELESS, NAMED], {}, [], 0) == Request([NAMELESS, NAMED], []);
  }

  lemma SecondPass(rules: Rules)
    requires Fits(rules, Request([], []))
    ensures FirstFit(rules, NormalAll(rules, [], map[]), Protected(rules, []), Previously(["", "p"]), Request([], []),
      0)
  {
    hide Fits;
    assert NormalAll(rules, [], map[]) == [] && Previously(["", "p"]) == [];
    assert Candidate([], Protected(rules, []), [], 0) == Request([], []);
  }
}
