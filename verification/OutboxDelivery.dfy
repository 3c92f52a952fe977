/** Delivering outbox rows to the packet store, in insertion order, with crashes anywhere
    between the two stores. */
module OutboxDelivery {
  import opened Prelude
  import opened BrokerModel
  import BrokerRuns
  import BrokerSafety

  /** A reconcile at work: the rows it listed and has not marked yet, and whether the first
      of them was put already. */
  datatype Worker = Worker(todo: seq<PacketId>, put: bool)

  /** `stored` is the packet store, grow-only; its put is idempotent. */
  datatype State = State(rows: seq<Row>, materialized: seq<bool>, stored: set<PacketId>, worker: Option<Worker>)

  datatype Event =
    | Inserted(row: Row)   // a transaction committed a packet
    | Began                // a reconcile got the lock and listed the rows
    | Put | Marked
    | Stopped              // it finished, raised, or its process died

  /** SELECT * FROM outbox WHERE materialized=0 ORDER BY rowid. */
  function Unmaterialized(flags: seq<bool>, from: int): seq<PacketId>
    requires 0 <= from <= |flags|
    decreases |flags| - from
  {
    if from == |flags| then []
    else if flags[from] then Unmaterialized(flags, from + 1)
    else [from] + Unmaterialized(flags, from + 1)
  }

  predicate Enabled(s: State, e: Event) {
    match e
    case Inserted(row) => forall p :: p in row.parents ==> 0 <= p < |s.rows|
    case Began => s.worker.None?
    case Put => s.worker.Some? && !s.worker.value.put && s.worker.value.todo != []
    case Marked => s.worker.Some? && s.worker.value.put && s.worker.value.todo != []
    case Stopped => s.worker.Some?
  }

  function Next(s: State, e: Event): State
    requires Enabled(s, e) && |s.materialized| == |s.rows|
  {
    match e
    case Inserted(row) => s.(rows := s.rows + [row], materialized := s.materialized + [false])
    case Began => s.(worker := Some(Worker(Unmaterialized(s.materialized, 0), false)))
    case Put => s.(stored := s.stored + {s.worker.value.todo[0]}, worker := Some(s.worker.value.(put := true)))
    case Marked =>
      var id := s.worker.value.todo[0];
      s.(materialized := if 0 <= id < |s.materialized| then s.materialized[id := true] else s.materialized,
         worker := Some(Worker(s.worker.value.todo[1..], false)))
    case Stopped => s.(worker := None)
  }

  ghost predicate CountsUp(todo: seq<PacketId>, from: int) {
    forall k :: 0 <= k < |todo| ==> todo[k] == from + k
  }

  /** The first `m` rows are materialized and stored; at most the next one is stored too; and
      a reconcile at work has exactly the following rows before it. */
  ghost predicate DeliveredTo(s: State, m: int) {
    && |s.materialized| == |s.rows| && 0 <= m <= |s.rows|
    && (forall k :: 0 <= k < |s.rows| ==> (s.materialized[k] <==> k < m))
    && (forall p :: p in s.stored ==> 0 <= p <= m && p < |s.rows|)
    && (forall p :: 0 <= p < m ==> p in s.stored)
    && (s.worker.Some? ==>
          && CountsUp(s.worker.value.todo, m) && m + |s.worker.value.todo| <= |s.rows|
          && (s.worker.value.put ==> s.worker.value.todo != [] && m in s.stored))
    && (forall k, p :: 0 <= k < |s.rows| && p in s.rows[k].parents ==> 0 <= p < k)
  }

  ghost predicate Inv(s: State) {
    exists m :: DeliveredTo(s, m)
  }

  lemma UnmaterializedCountsUp(flags: seq<bool>, from: int, m: int)
    requires 0 <= from <= |flags| && 0 <= m <= |flags| && forall k :: 0 <= k < |flags| ==> (flags[k] <==> k < m)
    ensures var u := Unmaterialized(flags, from);
      var low := if from < m then m else from;
      |u| == |flags| - low && CountsUp(u, low)
    decreases |flags| - from
  {
    if from < |flags| {
      UnmaterializedCountsUp(flags, from + 1, m);
    }
  }

  /** How far the rows are materialized after a step. */
  function Progress(s: State, e: Event, m: int): int {
    if e.Marked? then m + 1 else m
  }

  lemma StepDelivers(s: State, e: Event, m: int)
    requires DeliveredTo(s, m) && Enabled(s, e)
    ensures DeliveredTo(Next(s, e), Progress(s, e, m))
  {
    match e
    case Began => UnmaterializedCountsUp(s.materialized, 0, m);
    case Put => assert s.worker.value.todo[0] == m;
    case Marked =>
      var t := Next(s, e);
      assert s.worker.value.todo[0] == m;
      assert t.materialized == s.materialized[m := true];
      assert forall k :: 0 <= k < |t.worker.value.todo| ==> t.worker.value.todo[k] == s.worker.value.todo[k + 1];
    case Stopped =>
    case Inserted(row) =>
  }

  ghost predicate Run(s: State, run: seq<Event>)
    decreases |run|
  {
    run != [] ==> Enabled(s, run[0]) && |s.materialized| == |s.rows| && Run(Next(s, run[0]), run[1..])
  }

  ghost function After(s: State, run: seq<Event>): State
    requires Run(s, run)
    decreases |run|
  {
    if run == [] then s else After(Next(s, run[0]), run[1..])
  }

  /** Whatever is inserted, and wherever reconciles die: the materialized rows stay a prefix
      of the outbox, and the store holds that prefix or one row more. */
  lemma {:induction false} RunDelivers(s: State, run: seq<Event>, m: int) returns (n: int)
    requires DeliveredTo(s, m) && Run(s, run)
    ensures m <= n && DeliveredTo(After(s, run), n)
    decreases |run|
  {
    if run == [] {
      n := m;
    } else {
      StepDelivers(s, run[0], m);
      n := RunDelivers(Next(s, run[0]), run[1..], Progress(s, run[0], m));
    }
  }

  /** No packet is stored before the packets it names as parents. */
  lemma ParentsStoredFirst(s: State, p: PacketId, parent: PacketId)
    requires Inv(s) && p in s.stored && 0 <= p < |s.rows| && parent in s.rows[p].parents
    ensures parent in s.stored
  {
    var m :| DeliveredTo(s, m);
  }

  /** While a reconcile is not stopped, what it has before it and what it has done cover all
      rows there were when it began. */
  lemma {:induction false} WorkCovers(s: State, run: seq<Event>, m: int, start: int) returns (n: int)
    requires DeliveredTo(s, m) && Run(s, run) && s.worker.Some? && start <= m + |s.worker.value.todo|
    requires forall e :: e in run ==> !e.Stopped?
    ensures After(s, run).worker.Some? && DeliveredTo(After(s, run), n)
    ensures start <= n + |After(s, run).worker.value.todo|
    decreases |run|
  {
    if run == [] {
      n := m;
    } else {
      assert run[0] in run;
      StepDelivers(s, run[0], m);
      assert forall e :: e in run[1..] ==> e in run;
      n := WorkCovers(Next(s, run[0]), run[1..], Progress(s, run[0], m), start);
    }
  }

  /** An uninterrupted reconcile that has nothing left delivered every row that existed when
      it began, however many were inserted meanwhile; and the next one lists none of them. */
  lemma UninterruptedDeliversAll(s: State, run: seq<Event>)
    requires Inv(s) && s.worker.None? && |s.materialized| == |s.rows|
    requires Run(Next(s, Began), run) && (forall e :: e in run ==> !e.Stopped?)
    requires After(Next(s, Began), run).worker.Some? ==> After(Next(s, Began), run).worker.value.todo == []
    ensures var t := After(Next(s, Began), run);
      && |t.materialized| == |t.rows|
      && (forall k :: 0 <= k < |s.rows| ==> k < |t.rows| && t.materialized[k] && k in t.stored)
      && (forall p :: p in Unmaterialized(t.materialized, 0) ==> p >= |s.rows|)
  {
    var m :| DeliveredTo(s, m);
    var s1 := Next(s, Began);
    StepDelivers(s, Began, m);
    UnmaterializedCountsUp(s.materialized, 0, m);
    var n := WorkCovers(s1, run, m, |s.rows|);
    var t := After(s1, run);
    UnmaterializedCountsUp(t.materialized, 0, n);
    forall p | p in Unmaterialized(t.materialized, 0)
      ensures p >= |s.rows|
    {
      var k :| 0 <= k < |Unmaterialized(t.materialized, 0)| && Unmaterialized(t.materialized, 0)[k] == p;
    }
  }

  /** The broker's own outbox is a legal source of insertions: every row it ever commits
      names only earlier rows. */
  lemma BrokerRowsAreInsertable(cfg: Config, run: seq<BrokerRuns.Event>, s: State)
    requires BrokerRuns.Run(cfg, EMPTY, run) && s.rows < BrokerRuns.After(cfg, EMPTY, run).outbox
    ensures Enabled(s, Inserted(BrokerRuns.After(cfg, EMPTY, run).outbox[|s.rows|]))
  {
    var outbox := BrokerRuns.After(cfg, EMPTY, run).outbox;
    forall p | p in outbox[|s.rows|].parents
      ensures 0 <= p < |s.rows|
    {
      BrokerSafety.ReachableOutboxOrder(cfg, run, |s.rows|, p);
    }
  }

  // ----- the reconcile loop --------------------------------------------------------

  /** The two stores and the loop between them. `steps` is how many of its writes this
      execution survives: a crash after any of them. */
  class Delivery {
    var rows: seq<Row>
    var materialized: seq<bool>
    var stored: set<PacketId>

    function View(): State
      reads this
    {
      State(rows, materialized, stored, None)
    }

    constructor ()
      ensures View() == State([], [], {}, None) && Inv(View())
    {
      rows, materialized, stored := [], [], {};
      new;
      assert DeliveredTo(View(), 0);
    }

    method Insert(row: Row)
      requires Inv(View()) && forall p :: p in row.parents ==> 0 <= p < |rows|
      modifies this`rows, this`materialized
      ensures Inv(View()) && rows == old(rows) + [row] && materialized == old(materialized) + [false]
    {
      ghost var m :| DeliveredTo(View(), m);
      rows, materialized := rows + [row], materialized + [false];
      assert DeliveredTo(View(), m);
    }

    method Reconcile(steps: nat) returns (finished: bool)
      requires Inv(View())
      modifies this`materialized, this`stored
      ensures Inv(View()) && old(stored) <= stored
      ensures forall k :: 0 <= k < |rows| && old(materialized)[k] ==> materialized[k]
      ensures finished ==> forall k :: 0 <= k < |rows| ==> materialized[k] && k in stored
      ensures steps >= 2 * |rows| ==> finished
    {
      ghost var m :| DeliveredTo(View(), m);
      var left := steps;
      var listed := Unmaterialized(materialized, 0);
      UnmaterializedCountsUp(materialized, 0, m);
      for k := 0 to |listed|
        invariant DeliveredTo(View(), m + k) && old(stored) <= stored
        invariant forall j :: 0 <= j < |rows| && old(materialized)[j] ==> materialized[j]
        invariant left + 2 * k == steps
      {
        if left == 0 {
          return false;
        }
        stored := stored + {listed[k]};
        left := left - 1;
        assert DeliveredTo(View(), m + k);
        if left == 0 {
          return false;
        }
        materialized := materialized[listed[k] := true];
        left := left - 1;
      }
      finished := true;
    }
  }
}
