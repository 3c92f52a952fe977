/** Matching cleanup receipts to slots, when idle slots are released and when an archived
    release is verified again. */
module Receipts {
  import opened Prelude

  type Uuid = string

  /** What identifies a physical slot: owner, process, and the set of its devices. */
  datatype Key = Key(owner: string, pid: int, devices: set<Uuid>)

  datatype Slot = Slot(owner: string, pid: int, devices: seq<Uuid>)

  /** One cleanup receipt; `devices` is None when the value is not a list of strings. */
  datatype Receipt = Receipt(
    owner: string, pid: int, devices: Option<seq<Uuid>>,
    released: bool, processReleased: bool, memoryReleased: bool)

  function SlotKey(s: Slot): Key {
    Key(s.owner, s.pid, SetOf(s.devices))
  }

  function ReceiptKey(r: Receipt): Key {
    Key(r.owner, r.pid, if r.devices.Some? then SetOf(r.devices.value) else {})
  }

  predicate Clean(r: Receipt) {
    r.released && r.processReleased && r.memoryReleased
  }

  function SlotKeys(slots: seq<Slot>): (r: seq<Key>)
    ensures |r| == |slots| && forall i :: 0 <= i < |slots| ==> r[i] == SlotKey(slots[i])
  {
    seq(|slots|, (i: int) requires 0 <= i < |slots| => SlotKey(slots[i]))
  }

  function ReceiptKeys(receipts: seq<Receipt>): (r: seq<Key>)
    ensures |r| == |receipts| && forall i :: 0 <= i < |receipts| ==> r[i] == ReceiptKey(receipts[i])
  {
    seq(|receipts|, (i: int) requires 0 <= i < |receipts| => ReceiptKey(receipts[i]))
  }

  // ----- idle release --------------------------------------------------------------

  /** The receipt names this slot: its owner, its process and exactly its devices, in any order. */
  ghost predicate Names(r: Receipt, s: Slot) {
    && r.owner == s.owner && r.pid == s.pid
    && (if r.devices.Some? then forall u :: u in r.devices.value <==> u in s.devices else s.devices == [])
  }

  /** Two slots that no receipt could tell apart. */
  ghost predicate Alike(a: Slot, b: Slot) {
    a.owner == b.owner && a.pid == b.pid && forall u :: u in a.devices <==> u in b.devices
  }

  ghost predicate Told(slots: seq<Slot>) {
    forall i, j :: 0 <= i < j < |slots| ==> !Alike(slots[i], slots[j])
  }

  ghost predicate Named(s: Slot, receipts: seq<Receipt>) {
    exists j :: 0 <= j < |receipts| && Names(receipts[j], s)
  }

  lemma KeysAreNames(r: Receipt, s: Slot)
    ensures ReceiptKey(r) == SlotKey(s) <==> Names(r, s)
  {
    if Names(r, s) {
      assert ReceiptKey(r).devices == SlotKey(s).devices;
    } else if r.owner == s.owner && r.pid == s.pid {
      if r.devices.Some? {
        var u :| !(u in r.devices.value <==> u in s.devices);
        assert !(u in ReceiptKey(r).devices <==> u in SlotKey(s).devices);
      } else {
        assert s.devices[0] in SlotKey(s).devices;
      }
    }
  }

  lemma KeysTellSlots(slots: seq<Slot>)
    ensures Distinct(SlotKeys(slots)) <==> Told(slots)
  {
    forall i, j | 0 <= i < j < |slots|
      ensures SlotKeys(slots)[i] == SlotKeys(slots)[j] <==> Alike(slots[i], slots[j])
    {
      AlikeIsSameKey(slots[i], slots[j]);
    }
    hide SlotKey, Alike;
  }

  lemma AlikeIsSameKey(a: Slot, b: Slot)
    ensures SlotKey(a) == SlotKey(b) <==> Alike(a, b)
  {
    if Alike(a, b) {
      assert SlotKey(a).devices == SlotKey(b).devices;
    } else if a.owner == b.owner && a.pid == b.pid {
      var u :| !(u in a.devices <==> u in b.devices);
      assert !(u in SlotKey(a).devices <==> u in SlotKey(b).devices);
    }
  }

  /** As many receipts as slots, no two slots alike, and a receipt for every slot: then and only
      then the receipts are the slots' keys, in some order. */
  lemma MatchingMeans(slots: seq<Slot>, receipts: seq<Receipt>)
    ensures Distinct(SlotKeys(slots)) && multiset(ReceiptKeys(receipts)) == multiset(SlotKeys(slots)) <==>
      && |receipts| == |slots| && Told(slots)
      && forall i :: 0 <= i < |slots| ==> Named(slots[i], receipts)
  {
    var expected, keys := SlotKeys(slots), ReceiptKeys(receipts);
    KeysTellSlots(slots);
    forall i | 0 <= i < |slots|
      ensures Named(slots[i], receipts) <==> expected[i] in keys
    {
      NamedIsKey(slots[i], receipts);
    }
    hide Told, Named, SlotKey, ReceiptKey;
    if Distinct(expected) && multiset(keys) == multiset(expected) {
      if |receipts| != |slots| {
        DifferentCounts(slots, receipts);
      }
      forall i | 0 <= i < |slots|
        ensures expected[i] in keys
      {
        assert expected[i] in multiset(keys);
      }
    } else if |receipts| == |slots| && Distinct(expected) && forall i :: 0 <= i < |slots| ==> expected[i] in keys {
      assert SetOf(expected) <= SetOf(keys);
      DistinctSize(expected);
      DistinctSize(keys);
      SubsetSize(SetOf(expected), SetOf(keys));
      SameSize(SetOf(expected), SetOf(keys));
      Pigeonhole(expected, keys);
    }
  }

  lemma NamedIsKey(s: Slot, receipts: seq<Receipt>)
    ensures Named(s, receipts) <==> SlotKey(s) in ReceiptKeys(receipts)
  {
    var keys := ReceiptKeys(receipts);
    forall j | 0 <= j < |receipts|
      ensures Names(receipts[j], s) <==> keys[j] == SlotKey(s)
    {
      KeysAreNames(receipts[j], s);
    }
    hide Names, SlotKey, ReceiptKey;
    if Named(s, receipts) {
      var j :| 0 <= j < |receipts| && Names(receipts[j], s);
      assert keys[j] == SlotKey(s);
    }
  }

  /** The receipt check of an idle release: as many receipts as slots, each clean, each for
      an expected slot and none twice, and every expected slot observed. */
  method MatchReceipts(slots: seq<Slot>, receipts: seq<Receipt>) returns (accepted: bool)
    ensures accepted <==>
      && |receipts| == |slots| && Told(slots)
      && (forall i :: 0 <= i < |slots| ==> Named(slots[i], receipts))
      && forall j :: 0 <= j < |receipts| ==>
           receipts[j].released && receipts[j].processReleased && receipts[j].memoryReleased
    ensures accepted <==>
      && Distinct(SlotKeys(slots))
      && multiset(ReceiptKeys(receipts)) == multiset(SlotKeys(slots))
      && forall r :: r in receipts ==> Clean(r)
  {
    MatchingMeans(slots, receipts);
    hide Told, Named;
    var expected := SetOf(SlotKeys(slots));
    if |receipts| != |slots| {
      DifferentCounts(slots, receipts);
      return false;
    }
    var observed: set<Key> := {};
    for i := 0 to |receipts|
      invariant observed == SetOf(ReceiptKeys(receipts)[..i]) && observed <= expected
      invariant Distinct(ReceiptKeys(receipts)[..i])
      invariant forall j :: 0 <= j < i ==> Clean(receipts[j])
    {
      var keys := ReceiptKeys(receipts);
      var key := ReceiptKey(receipts[i]);
      assert keys[..i + 1] == keys[..i] + [key];
      if !Clean(receipts[i]) || key !in expected || key in observed {
        if Clean(receipts[i]) {
          BadKey(SlotKeys(slots), keys, i);
        }
        return false;
      }
      observed := observed + {key};
    }
    assert ReceiptKeys(receipts)[..|receipts|] == ReceiptKeys(receipts);
    Pigeonhole(SlotKeys(slots), ReceiptKeys(receipts));
    accepted := observed == expected;
  }

  lemma DifferentCounts(slots: seq<Slot>, receipts: seq<Receipt>)
    requires |receipts| != |slots|
    ensures multiset(ReceiptKeys(receipts)) != multiset(SlotKeys(slots))
  {
    assert |multiset(ReceiptKeys(receipts))| == |receipts| && |multiset(SlotKeys(slots))| == |slots|;
  }

  lemma BadKey(slots: seq<Key>, keys: seq<Key>, i: int)
    requires 0 <= i < |keys| && (keys[i] !in slots || keys[i] in keys[..i])
    ensures !(Distinct(slots) && multiset(keys) == multiset(slots))
  {
    if Distinct(slots) && multiset(keys) == multiset(slots) {
      assert keys[i] in multiset(keys);
      if keys[i] in keys[..i] {
        var j :| 0 <= j < i && keys[j] == keys[i];
        DistinctCount(slots, keys[i]);
        CountTwice(keys, j, i);
      }
      assert false;
    }
  }

  lemma DistinctCount(keys: seq<Key>, k: Key)
    requires Distinct(keys)
    ensures multiset(keys)[k] == if k in keys then 1 else 0
    decreases |keys|
  {
    if keys != [] {
      var init, last := keys[..|keys| - 1], keys[|keys| - 1];
      assert keys == init + [last];
      DistinctCount(init, k);
      assert last !in init;
    }
  }

  lemma CountTwice(keys: seq<Key>, j: int, i: int)
    requires 0 <= j < i < |keys| && keys[j] == keys[i]
    ensures multiset(keys)[keys[i]] >= 2
  {
    assert keys == keys[..i] + [keys[i]] + keys[i + 1..];
    assert keys[i] in keys[..i] by { assert keys[..i][j] == keys[i]; }
    assert keys[i] in multiset(keys[..i]);
  }

  lemma DistinctLast<T>(keys: seq<T>)
    requires keys != []
    ensures var init, last := keys[..|keys| - 1], keys[|keys| - 1];
      Distinct(keys) <==> Distinct(init) && last !in init
  {
    var init, last := keys[..|keys| - 1], keys[|keys| - 1];
    if last in init {
      var j :| 0 <= j < |init| && init[j] == last;
      assert keys[j] == keys[|keys| - 1];
    } else if !Distinct(init) {
      var a, b :| 0 <= a < b < |init| && init[a] == init[b];
      assert keys[a] == keys[b];
    }
  }

  lemma DistinctSize<T(!new)>(keys: seq<T>)
    ensures |SetOf(keys)| <= |keys|
    ensures |SetOf(keys)| == |keys| <==> Distinct(keys)
    decreases |keys|
  {
    if keys == [] {
      assert SetOf(keys) == {};
    } else {
      var init, last := keys[..|keys| - 1], keys[|keys| - 1];
      assert keys == init + [last];
      DistinctSize(init);
      DistinctLast(keys);
      hide Distinct;
      assert SetOf(keys) == SetOf(init) + {last};
      assert last in init <==> last in SetOf(init);
    }
  }

  /** Equal length, membership and no repeats make the receipts a permutation of the slots;
      and then no two slots share a key. */
  lemma Pigeonhole(slots: seq<Key>, keys: seq<Key>)
    requires |keys| == |slots| && Distinct(keys) && SetOf(keys) <= SetOf(slots)
    ensures SetOf(keys) == SetOf(slots) <==> Distinct(slots) && multiset(keys) == multiset(slots)
    ensures SetOf(keys) == SetOf(slots)
  {
    DistinctSize(keys);
    DistinctSize(slots);
    SameSize(SetOf(keys), SetOf(slots));
    forall k
      ensures multiset(keys)[k] == multiset(slots)[k]
    {
      DistinctCount(keys, k);
      DistinctCount(slots, k);
      assert k in keys <==> k in SetOf(keys);
      assert k in slots <==> k in SetOf(slots);
    }
  }

  lemma SameSize<T>(a: set<T>, b: set<T>)
    requires a <= b && |a| >= |b|
    ensures a == b
  {
    assert b == a + (b - a);
  }

  // ----- the same match with rejected slot lists -----------------------------------

  /** The broker's own match: a slot list with a repeated key expects nothing. */
  method ExpectedKeys(slots: seq<Slot>) returns (expected: set<Key>)
    ensures expected == if Distinct(SlotKeys(slots)) then SetOf(SlotKeys(slots)) else {}
    ensures forall k :: k in expected <==>
      Told(slots) && exists i :: 0 <= i < |slots| && k == Key(slots[i].owner, slots[i].pid, SetOf(slots[i].devices))
  {
    KeysTellSlots(slots);
    hide Told;
    expected := {};
    for i := 0 to |slots|
      invariant expected == SetOf(SlotKeys(slots)[..i]) && Distinct(SlotKeys(slots)[..i])
    {
      var keys := SlotKeys(slots);
      var key := SlotKey(slots[i]);
      assert keys[..i + 1] == keys[..i] + [key];
      if key in expected {
        var j :| 0 <= j < i && keys[j] == key;
        assert keys[i] == key;
        return {};
      }
      expected := expected + {key};
    }
    assert SlotKeys(slots)[..|slots|] == SlotKeys(slots);
  }

  // ----- archived release ----------------------------------------------------------

  datatype Archived = Archived(owner: string, pid: int, start: string, devices: seq<Uuid>, clean: bool)

  function Identity(a: Archived): (string, int, string) {
    (a.owner, a.pid, a.start)
  }

  predicate WellFormed(a: Archived, allowed: set<Uuid>) {
    && a.clean && a.owner != "" && a.pid > 0 && 1 <= |a.devices| <= 4
    && (forall u :: u in a.devices ==> u in allowed)
    && |SetOf(a.devices)| == |a.devices|
  }

  function Union(items: seq<Archived>): set<Uuid> {
    if items == [] then {} else Union(items[..|items| - 1]) + SetOf(items[|items| - 1].devices)
  }

  ghost predicate Disjoint(items: seq<Archived>) {
    forall i, j :: 0 <= i < j < |items| ==> SetOf(items[i].devices) !! SetOf(items[j].devices)
  }

  ghost predicate DistinctOwners(items: seq<Archived>) {
    forall i, j :: 0 <= i < j < |items| ==> Identity(items[i]) != Identity(items[j])
  }

  lemma UnionStep(items: seq<Archived>, u: Uuid)
    requires items != []
    ensures u in Union(items) <==> u in Union(items[..|items| - 1]) || u in items[|items| - 1].devices
  {
  }

  lemma {:induction false} UnionHolds(items: seq<Archived>, u: Uuid)
    ensures u in Union(items) <==> exists i :: 0 <= i < |items| && u in items[i].devices
  {
    if items != [] {
      UnionStep(items, u);
      hide Union;
      var init := items[..|items| - 1];
      UnionHolds(init, u);
      if u in Union(init) {
        var i :| 0 <= i < |init| && u in init[i].devices;
        assert u in items[i].devices;
      }
      if i :| 0 <= i < |items| && u in items[i].devices {
        assert i < |init| ==> u in init[i].devices;
      }
    }
  }

  /** Receipts that are each well formed, of different processes, and share no device. */
  ghost predicate Scoped(items: seq<Archived>, allowed: set<Uuid>) {
    && (forall i :: 0 <= i < |items| ==> WellFormed(items[i], allowed))
    && DistinctOwners(items) && Disjoint(items)
  }

  function Identities(items: seq<Archived>): set<(string, int, string)> {
    set i | 0 <= i < |items| :: Identity(items[i])
  }

  /** A clean receipt of a named process, for one to four allowed devices, none listed twice. */
  ghost predicate InScope(a: Archived, allowed: set<Uuid>) {
    && a.clean && a.owner != "" && a.pid > 0 && 1 <= |a.devices| <= 4 && Distinct(a.devices)
    && forall u :: u in a.devices ==> u in allowed
  }

  /** Such receipts, no device in two places, no two for the
      same process start, and no allowed device without one. */
  ghost predicate Partition(receipts: seq<Archived>, allowed: set<Uuid>) {
    && (forall i :: 0 <= i < |receipts| ==> InScope(receipts[i], allowed))
    && (forall i, j :: 0 <= i < j < |receipts| ==>
          && !(receipts[i].owner == receipts[j].owner && receipts[i].pid == receipts[j].pid
               && receipts[i].start == receipts[j].start)
          && forall u :: u in receipts[i].devices ==> u !in receipts[j].devices)
    && forall u :: u in allowed ==> exists i :: 0 <= i < |receipts| && u in receipts[i].devices
  }

  lemma WellFormedIs(a: Archived, allowed: set<Uuid>)
    ensures WellFormed(a, allowed) <==> InScope(a, allowed)
  {
    DistinctSize(a.devices);
    hide Distinct;
  }

  lemma ScopedIsPartition(receipts: seq<Archived>, allowed: set<Uuid>)
    ensures Scoped(receipts, allowed) && Union(receipts) == allowed <==> Partition(receipts, allowed)
  {
    forall u
      ensures u in Union(receipts) <==> exists i :: 0 <= i < |receipts| && u in receipts[i].devices
    {
      UnionHolds(receipts, u);
    }
    forall i | 0 <= i < |receipts|
      ensures WellFormed(receipts[i], allowed) <==> InScope(receipts[i], allowed)
    {
      WellFormedIs(receipts[i], allowed);
    }
    ApartIs(receipts);
    hide WellFormed, InScope, DistinctOwners, Disjoint, Union;
    if Partition(receipts, allowed) {
      assert forall i, u :: 0 <= i < |receipts| && u in receipts[i].devices ==> u in allowed by {
        DevicesAllowed(receipts, allowed);
      }
      assert Union(receipts) == allowed;
    }
  }

  lemma DevicesAllowed(receipts: seq<Archived>, allowed: set<Uuid>)
    requires forall i :: 0 <= i < |receipts| ==> InScope(receipts[i], allowed)
    ensures forall i, u :: 0 <= i < |receipts| && u in receipts[i].devices ==> u in allowed
  {
    hide Distinct;
  }

  lemma ApartIs(receipts: seq<Archived>)
    ensures DistinctOwners(receipts) && Disjoint(receipts) <==>
      forall i, j :: 0 <= i < j < |receipts| ==>
        && !(receipts[i].owner == receipts[j].owner && receipts[i].pid == receipts[j].pid
             && receipts[i].start == receipts[j].start)
        && forall u :: u in receipts[i].devices ==> u !in receipts[j].devices
  {
    forall i, j | 0 <= i < j < |receipts|
      ensures SetOf(receipts[i].devices) !! SetOf(receipts[j].devices) <==>
        forall u :: u in receipts[i].devices ==> u !in receipts[j].devices
    {
      if u :| u in receipts[i].devices && u in receipts[j].devices {
        assert u in SetOf(receipts[i].devices) && u in SetOf(receipts[j].devices);
      }
    }
  }

  /** The scope loop: receipts whose devices partition exactly the allowed ones. */
  method VerifyScope(receipts: seq<Archived>, allowed: set<Uuid>) returns (accepted: bool)
    ensures accepted <==> Partition(receipts, allowed)
    ensures accepted <==> Scoped(receipts, allowed) && Union(receipts) == allowed
  {
    ScopedIsPartition(receipts, allowed);
    hide WellFormed, Scoped, Identity, Partition;
    var seenSlots: set<(string, int, string)> := {};
    var seenDevices: set<Uuid> := {};
    assert Scoped([], allowed) by { NothingScoped(allowed); }
    for i := 0 to |receipts|
      invariant seenSlots == Identities(receipts[..i])
      invariant seenDevices == Union(receipts[..i])
      invariant Scoped(receipts[..i], allowed)
    {
      var item := receipts[i];
      assert receipts[..i + 1][..i] == receipts[..i];
      assert receipts[..i + 1] == receipts[..i] + [item];
      ScopedExtends(receipts[..i], item, allowed);
      ScopedPrefix(receipts, allowed, i + 1);
      if !WellFormed(item, allowed) || !(SetOf(item.devices) !! seenDevices) || Identity(item) in seenSlots {
        return false;
      }
      IdentitiesGrow(receipts[..i], item);
      seenSlots := seenSlots + {Identity(item)};
      seenDevices := seenDevices + SetOf(item.devices);
    }
    assert receipts[..|receipts|] == receipts;
    accepted := seenDevices == allowed;
  }

  lemma NothingScoped(allowed: set<Uuid>)
    ensures Scoped([], allowed)
  {
  }

  lemma IdentitiesGrow(items: seq<Archived>, item: Archived)
    ensures Identities(items + [item]) == Identities(items) + {Identity(item)}
  {
    var more := items + [item];
    assert forall i :: 0 <= i < |items| ==> more[i] == items[i];
    assert more[|items|] == item;
    forall x | x in Identities(items) + {Identity(item)}
      ensures x in Identities(more)
    {
      if x == Identity(item) {
        assert x == Identity(more[|items|]);
      } else {
        var i :| 0 <= i < |items| && x == Identity(items[i]);
        assert x == Identity(more[i]);
      }
    }
  }

  /** One receipt's checks are exactly what the longer list needs. */
  lemma ScopedExtends(items: seq<Archived>, item: Archived, allowed: set<Uuid>)
    requires Scoped(items, allowed)
    ensures Scoped(items + [item], allowed) <==>
      WellFormed(item, allowed) && SetOf(item.devices) !! Union(items) && Identity(item) !in Identities(items)
  {
    hide WellFormed;
    var more := items + [item];
    assert more[|items|] == item;
    assert forall i :: 0 <= i < |items| ==> more[i] == items[i];
    if SetOf(item.devices) !! Union(items) && Identity(item) !in Identities(items) {
      forall i | 0 <= i < |items|
        ensures SetOf(items[i].devices) !! SetOf(item.devices) && Identity(items[i]) != Identity(item)
      {
        forall u | u in items[i].devices
          ensures u in Union(items)
        {
          UnionHolds(items, u);
        }
      }
    }
    if Scoped(more, allowed) {
      forall u | u in Union(items)
        ensures u !in item.devices
      {
        UnionHolds(items, u);
        var i :| 0 <= i < |items| && u in items[i].devices;
        assert SetOf(more[i].devices) !! SetOf(more[|items|].devices);
        assert u in SetOf(more[i].devices);
      }
      forall i | 0 <= i < |items|
        ensures Identity(items[i]) != Identity(item)
      {
        assert Identity(more[i]) != Identity(more[|items|]);
      }
    }
  }

  lemma ScopedPrefix(items: seq<Archived>, allowed: set<Uuid>, k: int)
    requires 0 <= k <= |items|
    ensures Scoped(items, allowed) ==> Scoped(items[..k], allowed)
  {
    hide WellFormed;
  }
}
