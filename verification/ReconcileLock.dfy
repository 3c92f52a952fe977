/** The reentrant lock around reconcile: a process-local reentrant lock, a per-thread depth
    counter, and one file lock across processes. */
module ReconcileLock {
  import opened Prelude

  datatype Thread = Thread(process: int, id: int)

  /** Where a thread stands in the context manager. `Inside` is the protected region. */
  datatype Phase =
    | Outside
    | Entered        // holds the process lock, read depth 0
    | Opened         // opened its own descriptor of the lock file
    | Inside
    | Unlocking      // the outermost exit: the depth entry is gone
    | Closing        // past the unlock, with the descriptor still open

  /** `levels` counts the contexts the thread is really in, and `depth` is its counter. */
  datatype Local = Local(phase: Phase, levels: int, depth: int)

  datatype Held = Held(owner: Thread, count: int)

  datatype State = State(locals: map<Thread, Local>, process: map<int, Held>, file: Option<Thread>)

  const START := Local(Outside, 0, 0)
  const EMPTY := State(map[], map[], None)

  datatype Event =
    | Acquire(t: Thread) | Open(t: Thread) | OpenFails(t: Thread)
    | Flock(t: Thread) | FlockFails(t: Thread)
    | EnterNested(t: Thread) | ExitNested(t: Thread)      // an exit by return or by exception
    | BeginExit(t: Thread) | Unlock(t: Thread) | UnlockFails(t: Thread) | Close(t: Thread)
    | Dies(p: int)

  function At(s: State, t: Thread): Local {
    if t in s.locals then s.locals[t] else START
  }

  /** A reentrant lock is free for its owner and for anyone while nobody owns it. */
  predicate Free(s: State, t: Thread) {
    t.process in s.process ==> s.process[t.process].owner == t
  }

  predicate Enabled(s: State, e: Event) {
    match e
    case Acquire(t) => At(s, t).phase.Outside? && Free(s, t)
    case Open(t) => At(s, t).phase.Entered?
    case OpenFails(t) => At(s, t).phase.Entered?
    case Flock(t) => At(s, t).phase.Opened? && s.file.None?
    case FlockFails(t) => At(s, t).phase.Opened?
    case EnterNested(t) => At(s, t).phase.Inside? && Free(s, t)
    case ExitNested(t) => At(s, t).phase.Inside? && At(s, t).levels > 1
    case BeginExit(t) => At(s, t).phase.Inside? && At(s, t).levels == 1
    case Unlock(t) => At(s, t).phase.Unlocking?
    case UnlockFails(t) => At(s, t).phase.Unlocking?
    case Close(t) => At(s, t).phase.Closing?
    case Dies(p) => true
  }

  function Put(s: State, t: Thread, l: Local): State {
    s.(locals := s.locals[t := l])
  }

  function Take(process: map<int, Held>, t: Thread): map<int, Held> {
    process[t.process := if t.process in process then Held(t, process[t.process].count + 1) else Held(t, 1)]
  }

  function Release(process: map<int, Held>, t: Thread): map<int, Held> {
    if t.process !in process then process
    else if process[t.process].count <= 1 then process - {t.process}
    else process[t.process := Held(t, process[t.process].count - 1)]
  }

  /** One step. Closing a descriptor, and a process's death, drop a file lock held by it. */
  function Next(s: State, e: Event): State {
    match e
    case Acquire(t) =>
      Put(s, t, Local(Entered, 0, At(s, t).depth)).(process := Take(s.process, t))
    case Open(t) => Put(s, t, At(s, t).(phase := Opened))
    case OpenFails(t) => Put(s, t, At(s, t).(phase := Outside)).(process := Release(s.process, t))
    case Flock(t) => Put(s, t, Local(Inside, 1, 1)).(file := Some(t))
    case FlockFails(t) => Put(s, t, Local(Closing, 0, 0))
    case EnterNested(t) =>
      Put(s, t, Local(Inside, At(s, t).levels + 1, At(s, t).depth + 1)).(process := Take(s.process, t))
    case ExitNested(t) =>
      Put(s, t, Local(Inside, At(s, t).levels - 1, At(s, t).depth - 1)).(process := Release(s.process, t))
    case BeginExit(t) => Put(s, t, Local(Unlocking, 0, 0))
    case Unlock(t) => Put(s, t, At(s, t).(phase := Closing)).(file := None)
    case UnlockFails(t) => Put(s, t, At(s, t).(phase := Closing))
    case Close(t) =>
      Put(s, t, At(s, t).(phase := Outside)).(process := Release(s.process, t),
        file := if s.file == Some(t) then None else s.file)
    case Dies(p) =>
      s.(locals := map t | t in s.locals && t.process != p :: s.locals[t],
         process := s.process - {p},
         file := if s.file.Some? && s.file.value.process == p then None else s.file)
  }

  // ----- the invariant -------------------------------------------------------------

  /** A thread past `Outside` owns its process's lock, once per level it is in. */
  ghost predicate OwnsProcess(s: State, t: Thread) {
    var l := At(s, t);
    !l.phase.Outside? ==>
      && t.process in s.process && s.process[t.process].owner == t
      && s.process[t.process].count == if l.phase.Inside? then l.levels else 1
  }

  /** The counter is the number of contexts, and there are none outside the region. */
  ghost predicate DepthIsLevels(l: Local) {
    l.depth == l.levels && (if l.phase.Inside? then l.levels >= 1 else l.levels == 0)
  }

  /** Inside, and until the unlock, the thread holds the file lock. */
  ghost predicate HoldsFile(s: State, t: Thread) {
    At(s, t).phase.Inside? || At(s, t).phase.Unlocking? ==> s.file == Some(t)
  }

  ghost predicate FileHeldInside(s: State) {
    s.file.Some? ==> var l := At(s, s.file.value); l.phase.Inside? || l.phase.Unlocking? || l.phase.Closing?
  }

  ghost predicate OwnersEntered(s: State) {
    forall p :: p in s.process ==> !At(s, s.process[p].owner).phase.Outside? && s.process[p].owner.process == p
  }

  ghost predicate Inv(s: State) {
    && (forall t :: OwnsProcess(s, t) && DepthIsLevels(At(s, t)) && HoldsFile(s, t))
    && FileHeldInside(s) && OwnersEntered(s)
  }

  lemma EmptyInv()
    ensures Inv(EMPTY)
  {
  }

  /** A thread's own step leaves every other thread's place as it was. */
  lemma OthersUnmoved(s: State, e: Event, other: Thread)
    requires if e.Dies? then e.p != other.process else e.t != other
    ensures At(Next(s, e), other) == At(s, other)
  {
  }

  lemma StepMoves(s: State, e: Event, t: Thread)
    requires Inv(s) && Enabled(s, e) && if e.Dies? then e.p == t.process else e.t == t
    ensures OwnsProcess(Next(s, e), t) && DepthIsLevels(At(Next(s, e), t)) && HoldsFile(Next(s, e), t)
  {
    assert OwnsProcess(s, t) && DepthIsLevels(At(s, t)) && HoldsFile(s, t);
    hide Inv;
  }

  lemma StepLeaves(s: State, e: Event, t: Thread)
    requires Inv(s) && Enabled(s, e) && if e.Dies? then e.p != t.process else e.t != t
    ensures OwnsProcess(Next(s, e), t) && DepthIsLevels(At(Next(s, e), t)) && HoldsFile(Next(s, e), t)
  {
    assert OwnsProcess(s, t) && DepthIsLevels(At(s, t)) && HoldsFile(s, t);
    if !e.Dies? {
      assert OwnsProcess(s, e.t) && HoldsFile(s, e.t) && DepthIsLevels(At(s, e.t));
    }
    assert FileHeldInside(s) && OwnersEntered(s);
    hide Inv;
    OthersUnmoved(s, e, t);
  }

  lemma StepKeepsFile(s: State, e: Event)
    requires Inv(s) && Enabled(s, e)
    ensures FileHeldInside(Next(s, e))
  {
    if !e.Dies? {
      assert OwnsProcess(s, e.t) && HoldsFile(s, e.t) && DepthIsLevels(At(s, e.t));
    }
    assert FileHeldInside(s);
    hide Inv;
  }

  lemma StepKeepsOwners(s: State, e: Event)
    requires Inv(s) && Enabled(s, e)
    ensures OwnersEntered(Next(s, e))
  {
    if !e.Dies? {
      assert OwnsProcess(s, e.t) && DepthIsLevels(At(s, e.t));
    }
    assert OwnersEntered(s);
    hide Inv;
    var s' := Next(s, e);
    forall p | p in s'.process
      ensures !At(s', s'.process[p].owner).phase.Outside? && s'.process[p].owner.process == p
    {
      if !e.Dies? && s'.process[p].owner != e.t {
        OthersUnmoved(s, e, s'.process[p].owner);
      }
    }
  }

  lemma StepKeepsInv(s: State, e: Event)
    requires Inv(s) && Enabled(s, e)
    ensures Inv(Next(s, e))
  {
    hide Next, Enabled, OwnsProcess, DepthIsLevels, HoldsFile, FileHeldInside, OwnersEntered;
    StepKeepsFile(s, e);
    StepKeepsOwners(s, e);
    forall t
      ensures OwnsProcess(Next(s, e), t) && DepthIsLevels(At(Next(s, e), t)) && HoldsFile(Next(s, e), t)
    {
      if (if e.Dies? then e.p == t.process else e.t == t) {
        StepMoves(s, e, t);
      } else {
        StepLeaves(s, e, t);
      }
    }
  }

  // ----- runs ----------------------------------------------------------------------

  ghost predicate Run(s: State, run: seq<Event>)
    decreases |run|
  {
    run != [] ==> Enabled(s, run[0]) && Run(Next(s, run[0]), run[1..])
  }

  ghost function After(s: State, run: seq<Event>): State
    decreases |run|
  {
    if run == [] then s else After(Next(s, run[0]), run[1..])
  }

  lemma {:induction false} RunKeepsInv(s: State, run: seq<Event>)
    requires Inv(s) && Run(s, run)
    ensures Inv(After(s, run))
    decreases |run|
  {
    if run != [] {
      StepKeepsInv(s, run[0]);
      RunKeepsInv(Next(s, run[0]), run[1..]);
    }
  }

  /** At most one thread anywhere is inside the protected region. */
  lemma MutualExclusion(run: seq<Event>, a: Thread, b: Thread)
    requires Run(EMPTY, run)
    requires At(After(EMPTY, run), a).phase.Inside? && At(After(EMPTY, run), b).phase.Inside?
    ensures a == b
  {
    EmptyInv();
    RunKeepsInv(EMPTY, run);
    assert HoldsFile(After(EMPTY, run), a) && HoldsFile(After(EMPTY, run), b);
  }

  /** Entering again from inside never waits, opens nothing and leaves the file lock alone. */
  lemma NestedEntryNeverBlocks(run: seq<Event>, t: Thread)
    requires Run(EMPTY, run) && At(After(EMPTY, run), t).phase.Inside?
    ensures var s := After(EMPTY, run);
      && Enabled(s, EnterNested(t))
      && Next(s, EnterNested(t)).file == s.file
      && At(Next(s, EnterNested(t)), t).phase.Inside?
      && (forall x :: x != t ==> At(Next(s, EnterNested(t)), x) == At(s, x))
  {
    EmptyInv();
    RunKeepsInv(EMPTY, run);
    assert OwnsProcess(After(EMPTY, run), t);
  }

  /** The file lock is given up only on the outermost exit, or by the holder's death. */
  lemma FileLockReleasedOnlyOutermost(s: State, e: Event, t: Thread)
    requires Inv(s) && Enabled(s, e) && s.file == Some(t) && Next(s, e).file != Some(t)
    ensures e == Dies(t.process)
      || ((e == Unlock(t) || e == Close(t)) && At(s, t).levels == 0 && At(s, t).depth == 0)
  {
    assert DepthIsLevels(At(s, t));
  }

  /** And it is given up there: once the thread is outside again it holds nothing. */
  lemma OutsideHoldsNothing(run: seq<Event>, t: Thread)
    requires Run(EMPTY, run) && At(After(EMPTY, run), t).phase.Outside?
    ensures var s := After(EMPTY, run);
      && s.file != Some(t) && At(s, t).depth == 0
      && (t.process in s.process ==> s.process[t.process].owner != t)
  {
    EmptyInv();
    RunKeepsInv(EMPTY, run);
    var s := After(EMPTY, run);
    assert DepthIsLevels(At(s, t)) && FileHeldInside(s) && OwnersEntered(s);
  }

  function Balance(run: seq<Event>, t: Thread): int
    decreases |run|
  {
    if run == [] then 0
    else (if run[0] == EnterNested(t) then 1 else if run[0] == ExitNested(t) then -1 else 0) + Balance(run[1..], t)
  }

  /** Steps of this thread that only enter and leave nested contexts, and its process lives. */
  ghost predicate OnlyNests(run: seq<Event>, t: Thread) {
    forall e :: e in run ==> (if e.Dies? then e.p != t.process else e.t == t ==> e.EnterNested? || e.ExitNested?)
  }

  /** However other threads and processes interleave, the counter after some nested entries
      and exits is the counter before them plus their balance: zero for matched ones. */
  lemma {:induction false} DepthReturns(s: State, run: seq<Event>, t: Thread)
    requires Inv(s) && Run(s, run) && OnlyNests(run, t) && At(s, t).phase.Inside?
    ensures At(After(s, run), t).phase.Inside?
    ensures At(After(s, run), t).depth == At(s, t).depth + Balance(run, t)
    decreases |run|
  {
    if run != [] {
      var e := run[0];
      assert e in run;
      assert forall x :: x in run[1..] ==> x in run;
      StepKeepsInv(s, e);
      if e.Dies? || e.t != t {
        OthersUnmoved(s, e, t);
      }
      assert At(Next(s, e), t).phase.Inside?;
      DepthReturns(Next(s, e), run[1..], t);
    }
  }

  /** A thread that waits for the file lock waits for the thread inside or leaving: the
      process lock is taken first by both, so two threads of one process never meet there. */
  lemma FileLockHolderIsElsewhere(run: seq<Event>, t: Thread)
    requires Run(EMPTY, run) && At(After(EMPTY, run), t).phase.Opened? && After(EMPTY, run).file.Some?
    ensures After(EMPTY, run).file.value.process != t.process
  {
    EmptyInv();
    RunKeepsInv(EMPTY, run);
    var s := After(EMPTY, run);
    var h := s.file.value;
    assert OwnsProcess(s, t) && OwnsProcess(s, h) && FileHeldInside(s);
  }

  /** The lock can be had: when nobody holds the file and no other thread of the process holds
      its lock, three steps lead inside. */
  lemma EntersWhenFree(run: seq<Event>, t: Thread)
    requires Run(EMPTY, run) && At(After(EMPTY, run), t).phase.Outside? && After(EMPTY, run).file.None?
    requires forall x :: x != t && x.process == t.process ==> At(After(EMPTY, run), x).phase.Outside?
    ensures var s, entry := After(EMPTY, run), [Acquire(t), Open(t), Flock(t)];
      && Run(s, entry) && At(After(s, entry), t) == Local(Inside, 1, 1) && After(s, entry).file == Some(t)
  {
    EmptyInv();
    RunKeepsInv(EMPTY, run);
    var s := After(EMPTY, run);
    assert OwnersEntered(s);
    assert t.process !in s.process;
    ThreeSteps(s, Acquire(t), Open(t), Flock(t));
    hide Inv;
    assert Free(s, t);
  }

  lemma ThreeSteps(s: State, a: Event, b: Event, c: Event)
    ensures Run(s, [a, b, c]) <==> Enabled(s, a) && Enabled(Next(s, a), b) && Enabled(Next(Next(s, a), b), c)
    ensures After(s, [a, b, c]) == Next(Next(Next(s, a), b), c)
  {
    hide Enabled, Next;
    assert [a, b, c][1..] == [b, c] && [b, c][1..] == [c] && [c][1..] == [];
    assert Run(Next(Next(s, a), b), [c]) <==> Enabled(Next(Next(s, a), b), c);
    assert Run(Next(s, a), [b, c]) <==> Enabled(Next(s, a), b) && Run(Next(Next(s, a), b), [c]);
    assert After(Next(Next(s, a), b), [c]) == Next(Next(Next(s, a), b), c);
    assert After(Next(s, a), [b, c]) == After(Next(Next(s, a), b), [c]);
  }

  /** And it is given back: from the outermost level three steps lead outside, with both locks
      free for anyone; a failed opening gives the process lock back as well. */
  lemma LeavesBothFree(run: seq<Event>, t: Thread)
    requires Run(EMPTY, run)
    ensures var s, exit := After(EMPTY, run), [BeginExit(t), Unlock(t), Close(t)];
      At(s, t).phase.Inside? && At(s, t).levels == 1 ==>
        && Run(s, exit) && At(After(s, exit), t) == START
        && After(s, exit).file.None? && t.process !in After(s, exit).process
    ensures var s := After(EMPTY, run);
      At(s, t).phase.Entered? ==>
        Enabled(s, OpenFails(t)) && At(Next(s, OpenFails(t)), t) == START && t.process !in Next(s, OpenFails(t)).process
  {
    EmptyInv();
    RunKeepsInv(EMPTY, run);
    var s := After(EMPTY, run);
    assert OwnsProcess(s, t) && DepthIsLevels(At(s, t)) && HoldsFile(s, t);
    ThreeSteps(s, BeginExit(t), Unlock(t), Close(t));
    hide Inv;
  }
}
