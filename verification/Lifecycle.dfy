/** The life of runs in the daemon: dispatch under a semaphore, run goroutines, concurrent cancellations, timeouts,
    shutdown, crashes, and recovery at the next start, as steps over shared state in any interleaving. */
module Lifecycle {
  import opened Text
  import opened Sets
  import opened Store

  /** How far a run goroutine has come. */
  datatype Pc = Spawned | Registered | RowCreated | Marked | Executed | Recorded | Unregistered | Released

  /** `done` is its run context, cancelled by a cancellation, a timeout, or the daemon's shutdown. */
  datatype Thread = Thread(pc: Pc, done: bool, final: RunStatus)

  /** A call of CancelRun: it has found the run, then it has cancelled the context; its last act is the write. */
  datatype Cancel = Found(id: RunId) | Fired(id: RunId)

  datatype Phase = Down | Recovering | Idle | Holding | Draining | Stopped

  datatype State = State(
    rows: Rows, used: set<RunId>, threads: map<RunId, Thread>, inFlight: set<RunId>, cancels: map<nat, Cancel>,
    tokens: nat, wg: nat, phase: Phase, stop: bool, todo: seq<(RunId, RunStatus)>)

  const INITIAL := State(map[], {}, map[], {}, map[], 0, 0, Down, false, [])

  datatype Event =
    | Boot(snapshot: seq<(RunId, RunStatus)>)
    | Recover(live: bool)
    | Serve
    | Acquire
    | Spawn(id: RunId)
    | Register(id: RunId)
    | Create(id: RunId, live: bool, now: int)
    | Mark(id: RunId, live: bool)
    | Execute(id: RunId, final: RunStatus)
    | Record(id: RunId, live: bool, code: int)
    | Unregister(id: RunId)
    | Release(id: RunId)
    | Finish(id: RunId)
    | Timeout(id: RunId)
    | CancelLoad(c: nat, id: RunId)
    | CancelFire(c: nat)
    | CancelWrite(c: nat, live: bool)
    | Stop
    | Drain
    | CloseStore
    | Crash

  predicate Stale(s: RunStatus) {
    s == Queued || s == Running
  }

  predicate At(s: State, id: RunId, pc: Pc) {
    id in s.threads && s.threads[id].pc == pc
  }

  /** A write lands only if its context is not done and the store is open. */
  predicate MayWrite(s: State, id: RunId, live: bool) {
    live ==> id in s.threads && !s.threads[id].done && s.phase != Stopped
  }

  /** What listing the runs may answer: some of the rows, each once, with their status. */
  ghost predicate FromTable(snap: seq<(RunId, RunStatus)>, rows: Rows) {
    && (forall i | 0 <= i < |snap| :: snap[i].0 in rows && rows[snap[i].0].status == snap[i].1)
    && (forall i, j | 0 <= i < j < |snap| :: snap[i].0 != snap[j].0)
  }

  ghost predicate Enabled(s: State, e: Event, max: nat) {
    match e
    case Boot(snap) => s.phase == Down && FromTable(snap, s.rows)
    case Recover(_) => s.phase == Recovering && s.todo != []
    case Serve => s.phase == Recovering && s.todo == []
    case Acquire => s.phase == Idle && s.tokens < max
    case Spawn(id) => s.phase == Holding && id !in s.used
    case Register(id) => At(s, id, Spawned)
    case Create(id, live, _) => At(s, id, Registered) && MayWrite(s, id, live)
    case Mark(id, live) => At(s, id, RowCreated) && MayWrite(s, id, live)
    case Execute(id, f) => At(s, id, Marked) && f in {Success, Failure, Error}
    case Record(id, live, _) => At(s, id, Executed) && MayWrite(s, id, live)
    case Unregister(id) => At(s, id, Recorded)
    case Release(id) => At(s, id, Unregistered)
    case Finish(id) => At(s, id, Released)
    case Timeout(id) => id in s.threads
    case CancelLoad(c, id) => c !in s.cancels && id in s.inFlight
    case CancelFire(c) => c in s.cancels && s.cancels[c].Found?
    case CancelWrite(c, live) => c in s.cancels && s.cancels[c].Fired? && (live ==> s.phase != Stopped)
    case Stop => s.phase != Down
    case Drain => s.phase == Idle && s.stop
    case CloseStore => s.phase == Draining && s.wg == 0
    case Crash => true
  }

  function Go(s: State, id: RunId, pc: Pc): map<RunId, Thread>
    requires id in s.threads
  {
    s.threads[id := s.threads[id].(pc := pc)]
  }

  function Cut(threads: map<RunId, Thread>, id: RunId): map<RunId, Thread> {
    if id in threads then threads[id := threads[id].(done := true)] else threads
  }

  ghost function Step(s: State, e: Event, max: nat): State
    requires Enabled(s, e, max)
  {
    match e
    case Boot(snap) => s.(phase := Recovering, todo := snap)
    case Recover(live) =>
      var (id, status) := s.todo[0];
      s.(todo := s.todo[1..], rows := if Stale(status) && live then Updated(s.rows, id, Error, None) else s.rows)
    case Serve => s.(phase := Idle)
    case Acquire => s.(phase := Holding, tokens := s.tokens + 1)
    case Spawn(id) =>
      s.(phase := Idle, used := s.used + {id}, wg := s.wg + 1,
         threads := s.threads[id := Thread(Spawned, s.stop, Error)])
    case Register(id) => s.(threads := Go(s, id, Registered), inFlight := s.inFlight + {id})
    case Create(id, live, now) =>
      s.(threads := Go(s, id, RowCreated), rows := if live then Created(s.rows, id, now) else s.rows)
    case Mark(id, live) =>
      s.(threads := Go(s, id, Marked), rows := if live then Updated(s.rows, id, Running, None) else s.rows)
    case Execute(id, f) => s.(threads := s.threads[id := s.threads[id].(pc := Executed, final := f)])
    case Record(id, live, code) =>
      s.(threads := Go(s, id, Recorded),
         rows := if live then Updated(s.rows, id, s.threads[id].final, Some(code)) else s.rows)
    case Unregister(id) =>
      s.(threads := Cut(Go(s, id, Unregistered), id), inFlight := s.inFlight - {id})
    case Release(id) => s.(threads := Go(s, id, Released), tokens := if s.tokens > 0 then s.tokens - 1 else 0)
    case Finish(id) => s.(threads := s.threads - {id}, wg := if s.wg > 0 then s.wg - 1 else 0)
    case Timeout(id) => s.(threads := Cut(s.threads, id))
    case CancelLoad(c, id) => s.(cancels := s.cancels[c := Found(id)])
    case CancelFire(c) =>
      s.(cancels := s.cancels[c := Fired(s.cancels[c].id)], threads := Cut(s.threads, s.cancels[c].id))
    case CancelWrite(c, live) =>
      s.(cancels := s.cancels - {c},
         rows := if live then Updated(s.rows, s.cancels[c].id, Canceled, None) else s.rows)
    case Stop => s.(stop := true, threads := map id | id in s.threads :: s.threads[id].(done := true))
    case Drain => s.(phase := Draining)
    case CloseStore => s.(phase := Stopped)
    case Crash => State(s.rows, s.used, map[], {}, map[], 0, 0, Down, false, [])
  }

  // ---- the status of a row ----

  /** What a goroutine still to write may find in its row. */
  predicate RowFits(t: Thread, status: RunStatus) {
    && (status == Canceled ==> t.done)
    && (t.pc == RowCreated ==> status in {Queued, Canceled})
    && (t.pc in {Marked, Executed} ==> status in {Queued, Running, Canceled})
  }

  ghost predicate ThreadFits(s: State, id: RunId)
    requires id in s.threads
  {
    var t := s.threads[id];
    && id in s.used && t.final in {Success, Failure, Error}
    && (t.pc in {Spawned, Registered} ==> id !in s.rows)
    && (id in s.rows ==> RowFits(t, s.rows[id].status))
  }

  /** Whenever the canceled status has been or is about to be written, the goroutine can no longer write. */
  ghost predicate LifeInv(s: State) {
    && s.rows.Keys <= s.used
    && (forall id | id in s.threads :: ThreadFits(s, id))
    && (forall c | c in s.cancels :: s.cancels[c].id in s.used)
    && (forall c | c in s.cancels && s.cancels[c].Fired? && s.cancels[c].id in s.threads :: s.threads[s.cancels[c].id].done)
    && (forall id | id in s.inFlight :: id in s.used)
    && (s.phase in {Down, Recovering} ==> s.threads == map[] && s.cancels == map[] && s.inFlight == {})
    && (s.phase == Recovering ==> FromTable(s.todo, s.rows))
  }

  /** The steps that write to the table. */
  predicate Writes(e: Event) {
    e.Create? || e.Mark? || e.Record? || e.CancelWrite? || e.Recover?
  }

  lemma RecoverInv(s: State, live: bool, max: nat)
    requires LifeInv(s) && Enabled(s, Recover(live), max)
    ensures var s' := Step(s, Recover(live), max); LifeInv(s') && RowsLe(s.rows, s'.rows)
  {
  }

  lemma CreateInv(s: State, id: RunId, live: bool, now: int, max: nat)
    requires LifeInv(s) && Enabled(s, Create(id, live, now), max)
    ensures var s' := Step(s, Create(id, live, now), max); LifeInv(s') && RowsLe(s.rows, s'.rows)
  {
  }

  lemma MarkInv(s: State, id: RunId, live: bool, max: nat)
    requires LifeInv(s) && Enabled(s, Mark(id, live), max)
    ensures var s' := Step(s, Mark(id, live), max); LifeInv(s') && RowsLe(s.rows, s'.rows)
  {
    assert ThreadFits(s, id);
  }

  lemma RecordInv(s: State, id: RunId, live: bool, code: int, max: nat)
    requires LifeInv(s) && Enabled(s, Record(id, live, code), max)
    ensures var s' := Step(s, Record(id, live, code), max); LifeInv(s') && RowsLe(s.rows, s'.rows)
  {
    assert ThreadFits(s, id);
  }

  lemma CancelWriteInv(s: State, c: nat, live: bool, max: nat)
    requires LifeInv(s) && Enabled(s, CancelWrite(c, live), max)
    ensures var s' := Step(s, CancelWrite(c, live), max); LifeInv(s') && RowsLe(s.rows, s'.rows)
  {
  }

  /** Steps of goroutines and cancellations that do not write. */
  predicate Moves(e: Event) {
    e.Register? || e.Execute? || e.Unregister? || e.Release? || e.Finish? || e.Timeout? || e.CancelLoad? || e.CancelFire?
  }

  lemma MoveInv(s: State, e: Event, max: nat)
    requires LifeInv(s) && Enabled(s, e, max) && Moves(e)
    ensures LifeInv(Step(s, e, max)) && Step(s, e, max).rows == s.rows
  {
    hide Enabled, LifeInv, Step;
    if e.CancelFire? || e.Timeout? || e.CancelLoad? { CutInv(s, e, max); }
    else if e.Register? || e.Execute? { WorkInv(s, e, max); }
    else { LeaveInv(s, e, max); }
  }

  lemma WorkInv(s: State, e: Event, max: nat)
    requires LifeInv(s) && Enabled(s, e, max) && (e.Register? || e.Execute?)
    ensures LifeInv(Step(s, e, max)) && Step(s, e, max).rows == s.rows
  {
  }

  lemma LeaveInv(s: State, e: Event, max: nat)
    requires LifeInv(s) && Enabled(s, e, max) && (e.Unregister? || e.Release? || e.Finish?)
    ensures LifeInv(Step(s, e, max)) && Step(s, e, max).rows == s.rows
  {
  }

  lemma CutInv(s: State, e: Event, max: nat)
    requires LifeInv(s) && Enabled(s, e, max) && (e.CancelFire? || e.Timeout? || e.CancelLoad?)
    ensures LifeInv(Step(s, e, max)) && Step(s, e, max).rows == s.rows
  {
  }

  lemma QuietInv(s: State, e: Event, max: nat)
    requires LifeInv(s) && Enabled(s, e, max) && !Writes(e) && !Moves(e)
    ensures LifeInv(Step(s, e, max)) && Step(s, e, max).rows == s.rows
  {
  }

  lemma SameRows(rows: Rows)
    ensures RowsLe(rows, rows)
  {
  }

  lemma StepKeepsLife(s: State, e: Event, max: nat)
    requires LifeInv(s) && Enabled(s, e, max)
    ensures var s' := Step(s, e, max); LifeInv(s') && RowsLe(s.rows, s'.rows)
  {
    hide LifeInv, Step, Enabled, RowsLe;
    SameRows(s.rows);
    match e
    case Recover(live) => RecoverInv(s, live, max);
    case Create(id, live, now) => CreateInv(s, id, live, now, max);
    case Mark(id, live) => MarkInv(s, id, live, max);
    case Record(id, live, code) => RecordInv(s, id, live, code, max);
    case CancelWrite(c, live) => CancelWriteInv(s, c, live, max);
    case _ => if Moves(e) { MoveInv(s, e, max); } else { QuietInv(s, e, max); }
  }

  /** No row came or went, and a row that changed was queued or running and is an error without exit code now. */
  ghost predicate OnlyStaleErred(a: Rows, b: Rows) {
    && a.Keys == b.Keys
    && forall id | id in b ::
         b[id] == a[id] || (a[id].status in {Queued, Running} && b[id] == Row(Error, None, a[id].started))
  }

  lemma RecoverOne(a: Rows, b: Rows, id: RunId, status: RunStatus)
    requires OnlyStaleErred(a, b) && id in a && a[id].status == status && Stale(status)
    ensures OnlyStaleErred(a, Updated(b, id, Error, None))
  {
  }

  ghost predicate DoneUpTo(runs: seq<(RunId, RunStatus)>, b: Rows, i: nat) {
    forall k | 0 <= k < i <= |runs| :: runs[k].0 in b && !Stale(b[runs[k].0].status)
  }

  lemma DoneOne(runs: seq<(RunId, RunStatus)>, a: Rows, b: Rows, b': Rows, i: nat)
    requires OnlyStaleErred(a, b) && FromTable(runs, a) && i < |runs| && DoneUpTo(runs, b, i)
    requires b' == if Stale(runs[i].1) then Updated(b, runs[i].0, Error, None) else b
    ensures DoneUpTo(runs, b', i + 1)
  {
    assert b'.Keys == a.Keys;
  }

  lemma RecoveredLe(a: Rows, b: Rows)
    requires OnlyStaleErred(a, b)
    ensures a.Keys == b.Keys && RowsLe(a, b)
  {
  }

  lemma NoneStale(runs: seq<(RunId, RunStatus)>, b: Rows)
    requires DoneUpTo(runs, b, |runs|) && forall id | id in b :: exists i | 0 <= i < |runs| :: runs[i].0 == id
    ensures forall id | id in b :: !Stale(b[id].status)
  {
  }

  /** Recovery at start: every listed row that was left queued or running becomes an error, no other row changes;
      with at most 10000 rows and a working database no stale row is left. */
  method RecoverStaleRuns(st: RunStore, live: bool)
    modifies st
    ensures RowsLe(old(st.rows), st.rows) && OnlyStaleErred(old(st.rows), st.rows)
    ensures live && |old(st.rows).Keys| <= 10000 ==> forall id | id in st.rows :: st.rows[id].status !in {Queued, Running}
  {
    var runs := st.ListRuns(0);
    ghost var a := st.rows;
    assert FromTable(runs, a) && OnlyStaleErred(a, a) && DoneUpTo(runs, a, 0);
    hide OnlyStaleErred, DoneUpTo, Updated;
    for i := 0 to |runs|
      invariant OnlyStaleErred(a, st.rows) && (live ==> DoneUpTo(runs, st.rows, i))
    {
      ghost var b := st.rows;
      if runs[i].1 == Queued || runs[i].1 == Running {
        var _ := st.UpdateRunStatus(live, runs[i].0, Error, None);
        RecoverOne(a, b, runs[i].0, runs[i].1);
      }
      if live { DoneOne(runs, a, b, st.rows, i); }
    }
    RecoveredLe(a, st.rows);
    if live && |a.Keys| <= 10000 { NoneStale(runs, st.rows); }
  }

  /** The table with every queued or running row turned into an error. */
  ghost predicate AllStaleErred(a: Rows, b: Rows) {
    OnlyStaleErred(a, b) && forall id | id in b :: b[id].status !in {Queued, Running}
  }

  /** The rest of the recovery: every write lands. */
  lemma {:induction false} RecoverRest(s: State, a: Rows, max: nat)
    requires s.phase == Recovering && FromTable(s.todo, s.rows) && OnlyStaleErred(a, s.rows)
    requires forall id | id in s.rows && Stale(s.rows[id].status) :: exists i | 0 <= i < |s.todo| :: s.todo[i].0 == id
    ensures var evs := seq(|s.todo|, i => Recover(true));
            && CanRun(s, evs + [Serve], max)
            && var s' := RunAll(s, evs + [Serve], max);
               s' == s.(phase := Idle, todo := [], rows := s'.rows) && AllStaleErred(a, s'.rows)
    decreases |s.todo|
  {
    var evs := seq(|s.todo|, i => Recover(true));
    if s.todo == [] {
      assert evs + [Serve] == [Serve] && [Serve][1..] == [];
      assert CanRun(Step(s, Serve, max), [], max);
    } else {
      var s1 := Step(s, Recover(true), max);
      var rest := seq(|s1.todo|, i => Recover(true));
      assert (evs + [Serve])[0] == Recover(true) && (evs + [Serve])[1..] == rest + [Serve];
      RecoverNext(s, a, max);
      RecoverRest(s1, a, max);
    }
  }

  lemma RecoverNext(s: State, a: Rows, max: nat)
    requires s.phase == Recovering && FromTable(s.todo, s.rows) && OnlyStaleErred(a, s.rows) && s.todo != []
    requires forall id | id in s.rows && Stale(s.rows[id].status) :: exists i | 0 <= i < |s.todo| :: s.todo[i].0 == id
    ensures Enabled(s, Recover(true), max)
    ensures var s1 := Step(s, Recover(true), max);
            && s1 == s.(todo := s.todo[1..], rows := s1.rows)
            && FromTable(s1.todo, s1.rows) && OnlyStaleErred(a, s1.rows)
            && forall id | id in s1.rows && Stale(s1.rows[id].status) :: exists i | 0 <= i < |s1.todo| :: s1.todo[i].0 == id
  {
    var s1 := Step(s, Recover(true), max);
    forall id | id in s1.rows && Stale(s1.rows[id].status) ensures exists i | 0 <= i < |s1.todo| :: s1.todo[i].0 == id {
      assert id in s.rows && Stale(s.rows[id].status);
      var i :| 0 <= i < |s.todo| && s.todo[i].0 == id;
      assert s1.todo[i - 1] == s.todo[i];
    }
  }

  /** A start behind a crash, or the first one, that lists all rows and whose writes land: when the daemon begins to
      serve, what was queued or running is an error without exit code, and every other row is as it was. */
  lemma CleanBoot(s: State, snap: seq<(RunId, RunStatus)>, max: nat)
    requires s.phase == Down && FromTable(snap, s.rows)
    requires forall id | id in s.rows :: exists i | 0 <= i < |snap| :: snap[i].0 == id
    ensures var evs := [Boot(snap)] + (seq(|snap|, i => Recover(true)) + [Serve]);
            && CanRun(s, evs, max)
            && var s' := RunAll(s, evs, max);
               s' == s.(phase := Idle, todo := [], rows := s'.rows) && AllStaleErred(s.rows, s'.rows)
  {
    var evs := [Boot(snap)] + (seq(|snap|, i => Recover(true)) + [Serve]);
    assert evs[1..] == seq(|snap|, i => Recover(true)) + [Serve];
    hide AllStaleErred;
    RecoverRest(Step(s, Boot(snap), max), s.rows, max);
  }

  // ---- the semaphore ----

  /** The goroutines that hold a token. */
  ghost function Holders(threads: map<RunId, Thread>): set<RunId> {
    set id | id in threads && threads[id].pc != Released
  }

  /** Tokens are held by goroutines that have not released theirs and by the dispatcher between acquiring and
      spawning; registered runs are among the holders; the wait group counts the goroutines; the store is closed only
      when there are none. */
  ghost predicate DispatchInv(s: State, max: nat) {
    && s.tokens == |Holders(s.threads)| + (if s.phase == Holding then 1 else 0)
    && s.tokens <= max
    && s.wg == |s.threads.Keys|
    && InFlightFits(s)
    && (s.phase in {Down, Recovering, Stopped} ==> s.threads == map[])
  }

  ghost predicate InFlightFits(s: State) {
    forall id | id in s.inFlight :: id in s.threads && s.threads[id].pc !in {Spawned, Unregistered, Released}
  }

  lemma StepKeepsInFlight(s: State, e: Event, max: nat)
    requires InFlightFits(s) && s.threads.Keys <= s.used && Enabled(s, e, max)
    ensures InFlightFits(Step(s, e, max))
  {
    hide Created, Updated, FromTable;
  }

  /** Goroutines may move or be cancelled as long as none takes or gives back a token. */
  ghost predicate SameHolders(a: map<RunId, Thread>, b: map<RunId, Thread>) {
    && a.Keys == b.Keys
    && forall id | id in a :: a[id].pc == Released <==> b[id].pc == Released
  }

  lemma HoldersEqual(a: map<RunId, Thread>, b: map<RunId, Thread>)
    requires SameHolders(a, b)
    ensures Holders(a) == Holders(b)
  {
  }

  lemma HoldersAdd(a: map<RunId, Thread>, id: RunId, t: Thread)
    requires id !in a && t.pc != Released
    ensures |Holders(a[id := t])| == |Holders(a)| + 1 && |a[id := t].Keys| == |a.Keys| + 1
  {
    assert Holders(a[id := t]) == Holders(a) + {id};
    assert a[id := t].Keys == a.Keys + {id};
  }

  lemma HoldersGive(a: map<RunId, Thread>, id: RunId, t: Thread)
    requires id in a && a[id].pc != Released && t.pc == Released
    ensures |Holders(a[id := t])| == |Holders(a)| - 1 && a[id := t].Keys == a.Keys
  {
    assert Holders(a[id := t]) == Holders(a) - {id};
    assert id in Holders(a);
  }

  lemma HoldersGone(a: map<RunId, Thread>, id: RunId)
    requires id in a && a[id].pc == Released
    ensures Holders(a - {id}) == Holders(a) && |(a - {id}).Keys| == |a.Keys| - 1
  {
    assert (a - {id}).Keys == a.Keys - {id};
  }

  /** Steps that change how many goroutines or tokens there are. */
  predicate Counts(e: Event) {
    e.Spawn? || e.Release? || e.Finish? || e.Acquire? || e.Crash?
  }

  lemma CountKeepsDispatch(s: State, e: Event, max: nat)
    requires DispatchInv(s, max) && s.threads.Keys <= s.used && Enabled(s, e, max) && Counts(e)
    ensures DispatchInv(Step(s, e, max), max)
  {
    hide Step, Enabled, DispatchInv;
    match e
    case Spawn(id) => SpawnKeepsDispatch(s, id, max);
    case Release(id) => ReleaseKeepsDispatch(s, id, max);
    case Finish(id) => FinishKeepsDispatch(s, id, max);
    case Acquire => AcquireKeepsDispatch(s, max);
    case Crash => CrashKeepsDispatch(s, max);
  }

  lemma ReleaseKeepsDispatch(s: State, id: RunId, max: nat)
    requires DispatchInv(s, max) && s.threads.Keys <= s.used && Enabled(s, Release(id), max)
    ensures DispatchInv(Step(s, Release(id), max), max)
  {
    hide Holders, InFlightFits;
    StepKeepsInFlight(s, Release(id), max);
    HoldersGive(s.threads, id, s.threads[id].(pc := Released));
  }

  lemma FinishKeepsDispatch(s: State, id: RunId, max: nat)
    requires DispatchInv(s, max) && s.threads.Keys <= s.used && Enabled(s, Finish(id), max)
    ensures DispatchInv(Step(s, Finish(id), max), max)
  {
    hide Holders, InFlightFits;
    StepKeepsInFlight(s, Finish(id), max);
    HoldersGone(s.threads, id);
  }

  lemma AcquireKeepsDispatch(s: State, max: nat)
    requires DispatchInv(s, max) && s.threads.Keys <= s.used && Enabled(s, Acquire, max)
    ensures DispatchInv(Step(s, Acquire, max), max)
  {
    hide Holders, InFlightFits;
    StepKeepsInFlight(s, Acquire, max);
  }

  lemma CrashKeepsDispatch(s: State, max: nat)
    requires DispatchInv(s, max) && s.threads.Keys <= s.used
    ensures DispatchInv(Step(s, Crash, max), max)
  {
    hide Holders, InFlightFits;
    StepKeepsInFlight(s, Crash, max);
    NoHolders();
  }

  lemma SpawnKeepsDispatch(s: State, id: RunId, max: nat)
    requires DispatchInv(s, max) && s.threads.Keys <= s.used && Enabled(s, Spawn(id), max)
    ensures DispatchInv(Step(s, Spawn(id), max), max)
  {
    hide Holders, InFlightFits;
    StepKeepsInFlight(s, Spawn(id), max);
    HoldersAdd(s.threads, id, Thread(Spawned, s.stop, Error));
  }

  lemma NoHolders()
    ensures |Holders(map[])| == 0
  {
  }

  lemma OtherKeepsDispatch(s: State, e: Event, max: nat)
    requires DispatchInv(s, max) && s.threads.Keys <= s.used && Enabled(s, e, max) && !Counts(e)
    ensures DispatchInv(Step(s, e, max), max)
  {
    hide Holders, Created, Updated, FromTable, InFlightFits;
    StepKeepsInFlight(s, e, max);
    OtherHolders(s, e, max);
    HoldersEqual(s.threads, Step(s, e, max).threads);
    if e.CloseStore? {
      assert s.threads.Keys == {};
    }
  }

  lemma OtherHolders(s: State, e: Event, max: nat)
    requires Enabled(s, e, max) && !Counts(e)
    ensures SameHolders(s.threads, Step(s, e, max).threads)
  {
    hide Created, Updated, FromTable;
  }

  // ---- whole runs ----

  /** A run of the daemon: a list of events, each enabled when it happens. */
  ghost predicate Possible(evs: seq<Event>, max: nat)
    decreases |evs|, 0
  {
    evs == [] ||
    (Possible(evs[..|evs| - 1], max) && Enabled(After(evs[..|evs| - 1], max), evs[|evs| - 1], max))
  }

  ghost function After(evs: seq<Event>, max: nat): State
    requires Possible(evs, max)
    decreases |evs|, 1
  {
    if evs == [] then INITIAL else Step(After(evs[..|evs| - 1], max), evs[|evs| - 1], max)
  }

  lemma {:induction false} AlwaysInv(evs: seq<Event>, max: nat)
    requires Possible(evs, max)
    ensures LifeInv(After(evs, max)) && DispatchInv(After(evs, max), max)
  {
    if evs != [] {
      var front, e := evs[..|evs| - 1], evs[|evs| - 1];
      AlwaysInv(front, max);
      StepInv(After(front, max), e, max);
    } else {
      NoHolders();
    }
  }

  lemma StepInv(s: State, e: Event, max: nat)
    requires LifeInv(s) && DispatchInv(s, max) && Enabled(s, e, max)
    ensures LifeInv(Step(s, e, max)) && DispatchInv(Step(s, e, max), max)
  {
    StepKeepsLife(s, e, max);
    assert s.threads.Keys <= s.used by { assert forall id | id in s.threads :: ThreadFits(s, id); }
    hide LifeInv, DispatchInv, Step, Enabled;
    if Counts(e) { CountKeepsDispatch(s, e, max); } else { OtherKeepsDispatch(s, e, max); }
  }

  /** A run nobody disturbs: its row is queued, then running, then holds the result and exit code; afterwards its token,
      its registration and its place in the wait group are given back and every other row is as it was. */
  lemma CleanRun(s: State, id: RunId, f: RunStatus, code: int, now: int, max: nat)
    requires LifeInv(s) && s.phase == Idle && !s.stop && s.tokens < max && id !in s.used && f in {Success, Failure, Error}
    ensures var start := [Acquire, Spawn(id), Register(id), Create(id, true, now)];
            var work := [Mark(id, true), Execute(id, f)];
            var end := [Record(id, true, code), Unregister(id), Release(id), Finish(id)];
            && CanRun(s, start, max) && CanRun(s, start + work, max) && CanRun(s, start + work + end, max)
            && RunAll(s, start, max).rows == s.rows[id := Row(Queued, None, now)]
            && RunAll(s, start + work, max).rows == s.rows[id := Row(Running, None, now)]
            && RunAll(s, start + work + end, max) == s.(rows := s.rows[id := Row(f, Some(code), now)], used := s.used + {id})
  {
    hide LifeInv, CanRun, RunAll;
    assert id !in s.rows && id !in s.threads && id !in s.inFlight by { FreshId(s, id); }
    var start := [Acquire, Spawn(id), Register(id), Create(id, true, now)];
    var work := [Mark(id, true), Execute(id, f)];
    var end := [Record(id, true, code), Unregister(id), Release(id), Finish(id)];
    var mid := CleanStart(s, id, now, max);
    var busy := mid.(rows := s.rows[id := Row(Running, None, now)], threads := s.threads[id := Thread(Executed, false, f)]);
    CleanWork(s, mid, id, f, now, max);
    CleanEnd(s, busy, id, f, code, now, max);
    RunConcat(s, start, work, max);
    RunConcat(s, start + work, end, max);
  }

  /** Events in a row from a given state. */
  ghost predicate CanRun(s: State, evs: seq<Event>, max: nat)
    decreases |evs|
  {
    evs == [] || (Enabled(s, evs[0], max) && CanRun(Step(s, evs[0], max), evs[1..], max))
  }

  ghost function RunAll(s: State, evs: seq<Event>, max: nat): State
    requires CanRun(s, evs, max)
    decreases |evs|
  {
    if evs == [] then s else RunAll(Step(s, evs[0], max), evs[1..], max)
  }

  lemma {:induction false} RunConcat(s: State, a: seq<Event>, b: seq<Event>, max: nat)
    requires CanRun(s, a, max) && CanRun(RunAll(s, a, max), b, max)
    ensures CanRun(s, a + b, max) && RunAll(s, a + b, max) == RunAll(RunAll(s, a, max), b, max)
    decreases |a|
  {
    hide Step, Enabled;
    if a == [] {
      assert a + b == b;
    } else {
      assert (a + b)[1..] == a[1..] + b;
      RunConcat(Step(s, a[0], max), a[1..], b, max);
    }
  }

  lemma RunOne(s: State, e: Event, s': State, max: nat)
    requires Enabled(s, e, max) && Step(s, e, max) == s'
    ensures CanRun(s, [e], max) && RunAll(s, [e], max) == s'
  {
    assert [e][1..] == [] && CanRun(s', [], max);
  }

  lemma FreshId(s: State, id: RunId)
    requires LifeInv(s) && id !in s.used
    ensures id !in s.rows && id !in s.threads && id !in s.inFlight
  {
    assert id in s.threads ==> ThreadFits(s, id);
  }

  lemma CleanStart(s: State, id: RunId, now: int, max: nat) returns (mid: State)
    requires s.phase == Idle && !s.stop && s.tokens < max && id !in s.used && id !in s.rows
    ensures var evs := [Acquire, Spawn(id), Register(id), Create(id, true, now)];
            CanRun(s, evs, max) && RunAll(s, evs, max) == mid
    ensures mid == s.(rows := s.rows[id := Row(Queued, None, now)], used := s.used + {id}, inFlight := s.inFlight + {id},
                      threads := s.threads[id := Thread(RowCreated, false, Error)], tokens := s.tokens + 1, wg := s.wg + 1)
  {
    hide CanRun, RunAll;
    var s1 := s.(phase := Holding, tokens := s.tokens + 1);
    RunOne(s, Acquire, s1, max);
    var s2 := s1.(phase := Idle, used := s.used + {id}, wg := s.wg + 1,
                  threads := s.threads[id := Thread(Spawned, false, Error)]);
    RunOne(s1, Spawn(id), s2, max);
    var s3 := s2.(threads := s.threads[id := Thread(Registered, false, Error)], inFlight := s.inFlight + {id});
    Overwritten(s.threads, id, Thread(Spawned, false, Error), Thread(Registered, false, Error));
    RunOne(s2, Register(id), s3, max);
    mid := s3.(threads := s.threads[id := Thread(RowCreated, false, Error)], rows := s.rows[id := Row(Queued, None, now)]);
    Overwritten(s.threads, id, Thread(Registered, false, Error), Thread(RowCreated, false, Error));
    RunOne(s3, Create(id, true, now), mid, max);
    RunFour(s, Acquire, Spawn(id), Register(id), Create(id, true, now), max);
  }

  /** Four single steps make a run of four. */
  lemma RunFour(s: State, a: Event, b: Event, c: Event, d: Event, max: nat)
    requires CanRun(s, [a], max) && CanRun(RunAll(s, [a], max), [b], max)
    requires CanRun(RunAll(RunAll(s, [a], max), [b], max), [c], max)
    requires CanRun(RunAll(RunAll(RunAll(s, [a], max), [b], max), [c], max), [d], max)
    ensures CanRun(s, [a, b, c, d], max)
    ensures RunAll(s, [a, b, c, d], max) == RunAll(RunAll(RunAll(RunAll(s, [a], max), [b], max), [c], max), [d], max)
  {
    hide CanRun, RunAll;
    RunConcat(s, [a], [b], max);
    RunConcat(s, [a] + [b], [c], max);
    RunConcat(s, [a] + [b] + [c], [d], max);
    assert [a] + [b] + [c] + [d] == [a, b, c, d];
  }

  lemma CleanWork(s: State, mid: State, id: RunId, f: RunStatus, now: int, max: nat)
    requires mid.phase != Stopped && id in mid.rows && mid.threads == s.threads[id := Thread(RowCreated, false, Error)]
    requires mid.rows == s.rows[id := Row(Queued, None, now)] && f in {Success, Failure, Error}
    ensures CanRun(mid, [Mark(id, true), Execute(id, f)], max)
    ensures RunAll(mid, [Mark(id, true), Execute(id, f)], max) ==
            mid.(rows := s.rows[id := Row(Running, None, now)], threads := s.threads[id := Thread(Executed, false, f)])
  {
    hide CanRun, RunAll;
    var s1 := mid.(rows := s.rows[id := Row(Running, None, now)], threads := s.threads[id := Thread(Marked, false, Error)]);
    Overwritten(s.rows, id, Row(Queued, None, now), Row(Running, None, now));
    Overwritten(s.threads, id, Thread(RowCreated, false, Error), Thread(Marked, false, Error));
    RunOne(mid, Mark(id, true), s1, max);
    var s2 := s1.(threads := s.threads[id := Thread(Executed, false, f)]);
    Overwritten(s.threads, id, Thread(Marked, false, Error), Thread(Executed, false, f));
    RunOne(s1, Execute(id, f), s2, max);
    RunConcat(mid, [Mark(id, true)], [Execute(id, f)], max);
    assert [Mark(id, true)] + [Execute(id, f)] == [Mark(id, true), Execute(id, f)];
  }

  lemma CleanEnd(s: State, busy: State, id: RunId, f: RunStatus, code: int, now: int, max: nat)
    requires busy == s.(rows := s.rows[id := Row(Running, None, now)], used := s.used + {id}, inFlight := s.inFlight + {id},
                        threads := s.threads[id := Thread(Executed, false, f)], tokens := s.tokens + 1, wg := s.wg + 1)
    requires id !in s.threads && id !in s.inFlight && s.phase != Stopped
    ensures var evs := [Record(id, true, code), Unregister(id), Release(id), Finish(id)];
            && CanRun(busy, evs, max)
            && RunAll(busy, evs, max) == s.(rows := s.rows[id := Row(f, Some(code), now)], used := s.used + {id})
  {
    hide CanRun, RunAll, Step, Enabled;
    var left := busy.(rows := s.rows[id := Row(f, Some(code), now)], inFlight := s.inFlight,
                      threads := s.threads[id := Thread(Unregistered, true, f)]);
    CleanRecord(s, busy, left, id, f, code, now, max);
    CleanLeave(s, left, id, f, max);
    RunConcat(busy, [Record(id, true, code), Unregister(id)], [Release(id), Finish(id)], max);
    assert [Record(id, true, code), Unregister(id)] + [Release(id), Finish(id)]
        == [Record(id, true, code), Unregister(id), Release(id), Finish(id)];
  }

  lemma CleanRecord(s: State, busy: State, left: State, id: RunId, f: RunStatus, code: int, now: int, max: nat)
    requires busy.phase != Stopped && id !in s.inFlight && busy.inFlight == s.inFlight + {id}
    requires busy.rows == s.rows[id := Row(Running, None, now)] && busy.threads == s.threads[id := Thread(Executed, false, f)]
    requires left == busy.(rows := s.rows[id := Row(f, Some(code), now)], inFlight := s.inFlight,
                           threads := s.threads[id := Thread(Unregistered, true, f)])
    ensures CanRun(busy, [Record(id, true, code), Unregister(id)], max)
    ensures RunAll(busy, [Record(id, true, code), Unregister(id)], max) == left
  {
    hide CanRun, RunAll, Step, Enabled;
    var s1 := busy.(rows := left.rows, threads := s.threads[id := Thread(Recorded, false, f)]);
    Overwritten(s.rows, id, Row(Running, None, now), Row(f, Some(code), now));
    Overwritten(s.threads, id, Thread(Executed, false, f), Thread(Recorded, false, f));
    Overwritten(s.threads, id, Thread(Recorded, false, f), Thread(Unregistered, true, f));
    RecordAlone(busy, id, f, code, max);
    RunOne(busy, Record(id, true, code), s1, max);
    assert s1.inFlight - {id} == s.inFlight;
    UnregisterAlone(s1, id, f, max);
    RunOne(s1, Unregister(id), left, max);
    RunConcat(busy, [Record(id, true, code)], [Unregister(id)], max);
    assert [Record(id, true, code)] + [Unregister(id)] == [Record(id, true, code), Unregister(id)];
  }

  lemma Overwritten<V>(m: map<RunId, V>, k: RunId, a: V, b: V)
    ensures m[k := a][k := b] == m[k := b]
  {
  }

  lemma RecordAlone(s: State, id: RunId, f: RunStatus, code: int, max: nat)
    requires s.phase != Stopped && id in s.rows && id in s.threads && s.threads[id] == Thread(Executed, false, f)
    ensures Enabled(s, Record(id, true, code), max)
    ensures Step(s, Record(id, true, code), max) ==
            s.(rows := s.rows[id := Row(f, Some(code), s.rows[id].started)], threads := s.threads[id := Thread(Recorded, false, f)])
  {
  }

  lemma UnregisterAlone(s: State, id: RunId, f: RunStatus, max: nat)
    requires id in s.threads && s.threads[id] == Thread(Recorded, false, f)
    ensures Enabled(s, Unregister(id), max)
    ensures Step(s, Unregister(id), max) ==
            s.(inFlight := s.inFlight - {id}, threads := s.threads[id := Thread(Unregistered, true, f)])
  {
    assert Cut(Go(s, id, Unregistered), id) == s.threads[id := Thread(Unregistered, true, f)];
  }

  lemma CleanLeave(s: State, left: State, id: RunId, f: RunStatus, max: nat)
    requires id !in s.threads && left.threads == s.threads[id := Thread(Unregistered, true, f)]
    requires left.tokens == s.tokens + 1 && left.wg == s.wg + 1
    ensures CanRun(left, [Release(id), Finish(id)], max)
    ensures RunAll(left, [Release(id), Finish(id)], max) ==
            left.(threads := s.threads, tokens := s.tokens, wg := s.wg)
  {
    hide CanRun, RunAll;
    var s1 := left.(threads := s.threads[id := Thread(Released, true, f)], tokens := s.tokens);
    Overwritten(s.threads, id, Thread(Unregistered, true, f), Thread(Released, true, f));
    RunOne(left, Release(id), s1, max);
    assert s1.threads - {id} == s.threads;
    RunOne(s1, Finish(id), left.(threads := s.threads, tokens := s.tokens, wg := s.wg), max);
    RunConcat(left, [Release(id)], [Finish(id)], max);
    assert [Release(id)] + [Finish(id)] == [Release(id), Finish(id)];
  }

  /** In every reachable state: registered runs, tokens held, and the configured maximum, in that order; and once the
      store is closed no run is registered or alive. */
  lemma Bounded(evs: seq<Event>, max: nat)
    requires Possible(evs, max)
    ensures var s := After(evs, max);
            && |s.inFlight| <= s.tokens <= max
            && (s.phase == Stopped ==> s.inFlight == {} && s.threads == map[])
  {
    AlwaysInv(evs, max);
    hide After, Possible;
    var s := After(evs, max);
    assert s.inFlight <= Holders(s.threads);
    SubsetSize(s.inFlight, Holders(s.threads));
  }

  /** Between any two points of any run, across crashes and restarts, no row disappears and no status goes down. */
  lemma {:induction false} StatusNeverGoesDown(evs: seq<Event>, more: seq<Event>, max: nat)
    requires Possible(evs + more, max)
    ensures Possible(evs, max) && RowsLe(After(evs, max).rows, After(evs + more, max).rows)
    decreases |more|
  {
    if more == [] {
      assert evs + more == evs;
    } else {
      var n := |more| - 1;
      var all := evs + more;
      assert all[..|all| - 1] == evs + more[..n] && all[|all| - 1] == more[n];
      StatusNeverGoesDown(evs, more[..n], max);
      AlwaysInv(evs + more[..n], max);
      StepKeepsLife(After(evs + more[..n], max), more[n], max);
      hide After, Possible, LifeInv;
    }
  }

  /** The dispatcher leaves its loop only for a shutdown, and then every run has its context cancelled. */
  ghost predicate StopInv(s: State) {
    && (s.phase in {Draining, Stopped} ==> s.stop)
    && (s.stop ==> forall id | id in s.threads :: s.threads[id].done)
  }

  lemma StopStep(s: State, e: Event, max: nat)
    requires StopInv(s) && Enabled(s, e, max)
    ensures StopInv(Step(s, e, max))
  {
    hide Created, Updated, FromTable;
  }

  lemma {:induction false} StopsInOrder(evs: seq<Event>, max: nat)
    requires Possible(evs, max)
    ensures var s := After(evs, max);
            && (s.phase in {Draining, Stopped} ==> s.stop)
            && (s.stop ==> forall id | id in s.threads :: s.threads[id].done)
  {
    if evs != [] {
      var n := |evs| - 1;
      StopsInOrder(evs[..n], max);
      StopStep(After(evs[..n], max), evs[n], max);
    }
  }

  /** The run has a context that is done, or is over: it is never started again. */
  ghost predicate Silent(s: State, id: RunId) {
    id in s.used && (id in s.threads ==> s.threads[id].done)
  }

  /** A write to its row by the run itself. */
  predicate OwnWrite(e: Event, id: RunId) {
    (e.Create? || e.Mark? || e.Record?) && e.id == id && e.live
  }

  lemma SilentStep(s: State, e: Event, id: RunId, max: nat)
    requires Silent(s, id) && Enabled(s, e, max)
    ensures Silent(Step(s, e, max), id) && !OwnWrite(e, id)
  {
    hide Created, Updated, FromTable;
  }

  lemma LastStep(evs: seq<Event>, e: Event, max: nat)
    requires Possible(evs + [e], max)
    ensures Possible(evs, max) && Enabled(After(evs, max), e, max)
    ensures After(evs + [e], max) == Step(After(evs, max), e, max)
  {
    hide Enabled, Step;
    assert (evs + [e])[..|evs|] == evs;
  }

  lemma {:induction false} SilentForGood(evs: seq<Event>, more: seq<Event>, id: RunId, max: nat)
    requires Possible(evs + more, max) && Possible(evs, max) && Silent(After(evs, max), id)
    ensures Silent(After(evs + more, max), id) && forall e | e in more :: !OwnWrite(e, id)
    decreases |more|
  {
    hide Silent, OwnWrite, Step, Enabled, After, Possible;
    if more == [] {
      assert evs + more == evs;
    } else {
      var n := |more| - 1;
      assert more == more[..n] + [more[n]] && evs + more == evs + more[..n] + [more[n]];
      LastStep(evs + more[..n], more[n], max);
      SilentForGood(evs, more[..n], id, max);
      SilentStep(After(evs + more[..n], max), more[n], id, max);
    }
  }

  /** Behind a timeout, a shutdown, or the first half of a cancellation, a run that was alive never writes to its row
      again; neither does one that is started behind the shutdown. */
  lemma CutOff(evs: seq<Event>, e: Event, more: seq<Event>, id: RunId, max: nat)
    requires Possible(evs + [e] + more, max) && Possible(evs + [e], max) && Possible(evs, max)
    requires var s := After(evs, max);
             || (id in s.threads && (e == Timeout(id) || e == Stop))
             || (id in s.threads && e.CancelFire? && e.c in s.cancels && s.cancels[e.c].id == id)
             || (s.stop && e == Spawn(id))
    ensures forall w | w in more :: !OwnWrite(w, id)
  {
    hide After, Possible;
    AlwaysInv(evs, max);
    LastStep(evs, e, max);
    var s := After(evs, max);
    assert Silent(Step(s, e, max), id) by {
      hide DispatchInv;
      assert id in s.threads ==> ThreadFits(s, id);
    }
    hide Silent, LifeInv, DispatchInv, Step, Enabled;
    SilentForGood(evs + [e], more, id, max);
  }

  /** Once a cancellation has written, its row, if there is one, stays canceled for good. */
  lemma CanceledForGood(evs: seq<Event>, c: nat, more: seq<Event>, max: nat)
    requires Possible(evs + [CancelWrite(c, true)] + more, max) && Possible(evs, max)
    requires c in After(evs, max).cancels
    ensures var id := After(evs, max).cancels[c].id;
            id in After(evs, max).rows ==>
              var rows := After(evs + [CancelWrite(c, true)] + more, max).rows;
              id in rows && rows[id].status == Canceled
  {
    var mid := evs + [CancelWrite(c, true)];
    StatusNeverGoesDown(mid, more, max);
    assert mid[..|mid| - 1] == evs;
    hide Possible, Enabled;
  }
}
